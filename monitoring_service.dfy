/** The Selenium monitoring service (`foreup_bot/monitoring/monitoring_service.py`): a
    check lists the start-time label of every available tile, with no capacity filter;
    an alert is built and published only for a successful check that found something;
    the metrics are put on every pass; and the monitoring loop survives every error
    except the user's interrupt. */
module MonitoringService {
  import opened Text
  import opened Report
  import opened WallClock

  // ------------------------------------------------------------- the check

  /** What the browser meets on one check: the text of the first exception the guarded
      steps raise (starting the driver, opening the page, waiting for BOOK NOW or the
      date field), or else the listed tiles, each with its start-time label (`None` when
      the label element is missing). `took` is how long the check ran: its own
      `time.sleep(2)`, `time.sleep(1)` and `time.sleep(2)` as far as the path reaches them,
      and the browser's waits. */
  datatype ServiceSession = ServiceSession(error: Option<string>, tiles: seq<Option<string>>, took: nat)

  /** The labels of the tiles that have one, in page order. */
  function Labels(tiles: seq<Option<string>>): seq<string>
    decreases |tiles|
  {
    if tiles == [] then []
    else
      var last := tiles[|tiles| - 1];
      Labels(tiles[..|tiles| - 1]) + (if last.Some? then [last.value] else [])
  }

  lemma LabelsPrefix(tiles: seq<Option<string>>, i: nat)
    requires i < |tiles|
    ensures Labels(tiles[..i + 1]) == Labels(tiles[..i]) + (if tiles[i].Some? then [tiles[i].value] else [])
  {
    assert tiles[..i + 1][..i] == tiles[..i];
  }

  /** Every label listed belongs to a tile, every tile's label is listed, and the list is
      as long as the number of tiles that have a label. */
  lemma {:induction false} LabelsMeaning(tiles: seq<Option<string>>)
    ensures forall s | s in Labels(tiles) :: Some(s) in tiles
    ensures forall k | 0 <= k < |tiles| && tiles[k].Some? :: tiles[k].value in Labels(tiles)
    ensures |Labels(tiles)| <= |tiles|
    ensures |Labels(tiles)| == |tiles| <==> None !in tiles
    decreases |tiles|
  {
    if tiles != [] {
      var n := |tiles| - 1;
      var init := tiles[..n];
      LabelsMeaning(init);
      assert tiles == init + [tiles[n]];
      forall s | s in Labels(tiles) ensures Some(s) in tiles {
        if s in Labels(init) {
          assert Some(s) in init;
        }
      }
      forall k | 0 <= k < |tiles| && tiles[k].Some? ensures tiles[k].value in Labels(tiles) {
        if k < n {
          assert tiles[k] == init[k];
        }
      }
      if None in init {
        var k :| 0 <= k < |init| && init[k] == None;
        assert tiles[k] == None;
      }
    }
  }

  /** Lines 194-202: the loop over the tiles; a tile whose label cannot be found is
      skipped. */
  method CollectLabels(tiles: seq<Option<string>>) returns (slots: seq<string>)
    ensures slots == Labels(tiles)
  {
    slots := [];
    var i := 0;
    while i < |tiles|
      invariant 0 <= i <= |tiles|
      invariant slots == Labels(tiles[..i])
    {
      LabelsPrefix(tiles, i);
      if tiles[i].Some? {
        slots := slots + [tiles[i].value];
      }
      i := i + 1;
    }
    assert tiles[..i] == tiles;
  }

  /** Lines 131-225: `check_availability`. Without a date argument the configured date is
      read before the guarded block, so a configuration without one raises (`None`). Any
      failure inside the block gives an unsuccessful check whose message carries the
      exception's text. */
  function CheckAvailability(targetDate: Option<string>, config: Config, session: ServiceSession)
    : (r: Option<AvailabilityCheck>)
    ensures r.Some? <==> targetDate.Some? || config.targetDate.Some?
    ensures r.Some? ==>
      WellFormed(r.value)
      && r.value.date == (if targetDate.Some? then targetDate.value else config.targetDate.value)
      && (r.value.success <==> session.error.None?)
    ensures r.Some? && r.value.success ==> r.value.availableTimes == Labels(session.tiles)
    ensures r.Some? && !r.value.success ==> r.value.errorMessage.value == CHECK_FAILED + session.error.value
  {
    if targetDate.None? && config.targetDate.None? then None
    else
      var date := if targetDate.Some? then targetDate.value else config.targetDate.value;
      match session.error
      case Some(e) => Some(Failed(date, CHECK_FAILED + e))
      case None => Some(Succeeded(date, Labels(session.tiles)))
  }

  /** The check as the source runs it, collecting the labels in a loop. */
  method RunCheck(targetDate: Option<string>, config: Config, session: ServiceSession)
    returns (r: Option<AvailabilityCheck>)
    ensures r == CheckAvailability(targetDate, config, session)
  {
    var date: string;
    if targetDate.Some? {
      date := targetDate.value;
    } else if config.targetDate.Some? {
      date := config.targetDate.value;
    } else {
      return None;
    }
    if session.error.Some? {
      return Some(Failed(date, CHECK_FAILED + session.error.value));
    }
    var slots := CollectLabels(session.tiles);
    return Some(Succeeded(date, slots));
  }

  // ------------------------------------------------------------- alert and metrics

  /** An SNS publish: the topic, the subject, the message. */
  datatype Publication = Publication(topic: string, subject: string, message: string)

  /** Lines 227-253: `send_notification`. The alert is built only for a successful check
      that found something, and published only when the configuration has a top-level
      `sns_topic_arn`. */
  function Notify(config: Config, c: AvailabilityCheck): (p: Option<Publication>)
    ensures p.Some? <==> ShouldNotify(c) && config.topic.Some?
    ensures p.Some? ==>
      p.value.topic == config.topic.value && p.value.subject == "Tee Time Alert - " + c.date
      && p.value.message == AlertMessage(c.date, c.totalAvailable, c.availableTimes)
  {
    if ShouldNotify(c) && config.topic.Some? then
      Some(Publication(config.topic.value, "Tee Time Alert - " + c.date,
        AlertMessage(c.date, c.totalAvailable, c.availableTimes)))
    else None
  }

  /** The notification as sent: the message is accumulated line by line. */
  method SendNotification(config: Config, c: AvailabilityCheck) returns (p: Option<Publication>)
    ensures p == Notify(config, c)
  {
    var message := BuildAlert(c);
    p := None;
    if message.Some? && config.topic.Some? {
      p := Some(Publication(config.topic.value, "Tee Time Alert - " + c.date, message.value));
    }
  }

  // ------------------------------------------------------------- monitoring

  /** What one pass of the loop meets: a browser session, or the user's interrupt. */
  datatype Step = Pass(session: ServiceSession) | Interrupt

  /** What one pass did: a check with the alert it published and the metrics it put, or
      an exception (the configuration has no date) that the loop caught. */
  datatype Outcome = Checked(check: AvailabilityCheck, publication: Option<Publication>, metrics: seq<Metric>)
    | Raised

  /** Why the loop stopped: the user interrupted it, or the finite script of passes ran
      out (the source loops for ever). No exception ends it. */
  datatype Stop = Interrupted | ScriptExhausted

  /** Lines 294-313: one pass: check, put the metrics, alert when something was found. */
  function OutcomeOf(config: Config, session: ServiceSession): (o: Outcome)
    ensures o.Raised? <==> config.targetDate.None?
    ensures o.Checked? ==>
      Some(o.check) == CheckAvailability(None, config, session)
      && o.metrics == CheckMetrics(o.check)
      && o.publication == Notify(config, o.check)
  {
    match CheckAvailability(None, config, session)
    case None => Raised
    case Some(c) => Checked(c, Notify(config, c), CheckMetrics(c))
  }

  /** The sleep after a pass: the interval, or one minute once the pass raised (a
      missing date, or a negative interval that `time.sleep` refuses). */
  function Pause(config: Config, intervalMinutes: int): (d: nat)
    ensures config.targetDate.None? || intervalMinutes < 0 ==> d == MINUTE
    ensures config.targetDate.Some? && intervalMinutes >= 0 ==> d == Minutes(intervalMinutes)
  {
    if config.targetDate.None? || intervalMinutes < 0 then MINUTE else Minutes(intervalMinutes)
  }

  /** How long one pass spends before its pause: the check's own running time, or
      nothing when reading the configured date raises before the browser starts. */
  function PassTime(config: Config, session: ServiceSession): nat {
    if config.targetDate.None? then 0 else session.took
  }

  predicate AllPasses(ts: seq<Step>) {
    forall k | 0 <= k < |ts| :: ts[k].Pass?
  }

  /** The time a run of passes spends in its checks, pauses aside. */
  function ChecksTime(config: Config, ts: seq<Step>): (d: nat)
    requires AllPasses(ts)
    ensures config.targetDate.None? ==> d == 0
    decreases |ts|
  {
    if ts == [] then 0
    else ChecksTime(config, ts[..|ts| - 1]) + PassTime(config, ts[|ts| - 1].session)
  }

  /** The outcomes a run of passes leaves, one per pass, in order. */
  function Outcomes(config: Config, ts: seq<Step>): (r: seq<Outcome>)
    requires AllPasses(ts)
    ensures |r| == |ts|
    ensures forall k | 0 <= k < |ts| :: r[k] == OutcomeOf(config, ts[k].session)
  {
    seq(|ts|, k requires 0 <= k < |ts| => OutcomeOf(config, ts[k].session))
  }

  lemma OutcomesPrefix(config: Config, ts: seq<Step>, n: nat)
    requires n < |ts| && AllPasses(ts[..n]) && ts[n].Pass?
    ensures AllPasses(ts[..n + 1])
    ensures Outcomes(config, ts[..n + 1]) == Outcomes(config, ts[..n]) + [OutcomeOf(config, ts[n].session)]
    ensures ChecksTime(config, ts[..n + 1]) == ChecksTime(config, ts[..n]) + PassTime(config, ts[n].session)
  {
    assert ts[..n + 1] == ts[..n] + [ts[n]];
    assert ts[..n + 1][..n] == ts[..n];
  }

  /** An alert goes out on a pass exactly when its check succeeded with something found
      and a topic is configured; the metrics go out on every pass that reached the
      check. */
  lemma PassAlerts(config: Config, session: ServiceSession)
    requires config.targetDate.Some?
    ensures var o := OutcomeOf(config, session);
      o.Checked? && |o.metrics| == 2
      && (o.publication.Some? <==>
          session.error.None? && Labels(session.tiles) != [] && config.topic.Some?)
  {
  }

  class Monitor {
    const config: Config
    /** The passes still to come; a finite stand-in for the live site and the user. */
    var ticks: seq<Step>
    var outcomes: seq<Outcome>

    constructor(config: Config, ticks: seq<Step>)
      ensures this.config == config && this.ticks == ticks && outcomes == []
    {
      this.config := config;
      this.ticks := ticks;
      outcomes := [];
    }

    /** One pass over `session`, as the loop body runs it; the check's running time
        passes on the clock. */
    method Tick(clock: Clock, session: ServiceSession) returns (o: Outcome)
      modifies clock
      ensures o == OutcomeOf(config, session)
      ensures clock.now == old(clock.now) + PassTime(config, session)
    {
      var c := RunCheck(None, config, session);
      if c.None? {
        return Raised;
      }
      clock.Sleep(session.took);
      var metrics := CheckMetrics(c.value);
      var p: Option<Publication> := None;
      if c.value.success && c.value.totalAvailable > 0 {
        p := SendNotification(config, c.value);
      }
      return Checked(c.value, p, metrics);
    }

    /** Lines 284-320: `run_continuous_monitoring`. The guarded block is inside the loop:
        an exception is logged, the loop sleeps a minute and goes on; only the user's
        interrupt ends it. */
    method RunContinuousMonitoring(clock: Clock, intervalMinutes: int) returns (stop: Stop)
      modifies this, clock
      ensures |old(ticks)| >= |ticks| && ticks == old(ticks)[|old(ticks)| - |ticks|..]
      ensures var n := |outcomes| - |old(outcomes)|;
        0 <= n <= |old(ticks)| && AllPasses(old(ticks)[..n])
        && outcomes == old(outcomes) + Outcomes(config, old(ticks)[..n])
        && clock.now == old(clock.now) + ChecksTime(config, old(ticks)[..n]) + n * Pause(config, intervalMinutes)
      ensures var n := |outcomes| - |old(outcomes)|;
        match stop
        case Interrupted => n < |old(ticks)| && old(ticks)[n].Interrupt? && |ticks| == |old(ticks)| - n - 1
        case ScriptExhausted => ticks == [] && n == |old(ticks)|
    {
      ghost var ticks0 := ticks;
      ghost var outcomes0 := outcomes;
      ghost var now0 := clock.now;
      ghost var step := Pause(config, intervalMinutes);
      ghost var n := 0;
      while ticks != []
        invariant 0 <= n <= |ticks0| && ticks == ticks0[n..]
        invariant AllPasses(ticks0[..n])
        invariant outcomes == outcomes0 + Outcomes(config, ticks0[..n])
        invariant clock.now == now0 + ChecksTime(config, ticks0[..n]) + n * step
        decreases |ticks|
      {
        var tick := ticks[0];
        assert tick == ticks0[n];
        ticks := ticks[1..];
        if tick.Interrupt? {
          assert ticks == ticks0[n + 1..];
          return Interrupted;
        }
        PassAndPause(clock, intervalMinutes, tick.session, ticks0, outcomes0, now0, n);
        n := n + 1;
      }
      assert ticks0[..n] == ticks0;
      return ScriptExhausted;
    }

    /** The body of the loop for one browser session: the pass, its outcome, the pause. */
    method PassAndPause(clock: Clock, intervalMinutes: int, session: ServiceSession,
                        ghost ticks0: seq<Step>, ghost outcomes0: seq<Outcome>, ghost now0: nat, ghost n: nat)
      requires n < |ticks0| && ticks0[n] == Pass(session) && AllPasses(ticks0[..n])
      requires outcomes == outcomes0 + Outcomes(config, ticks0[..n])
      requires clock.now == now0 + ChecksTime(config, ticks0[..n]) + n * Pause(config, intervalMinutes)
      modifies this`outcomes, clock
      ensures AllPasses(ticks0[..n + 1])
      ensures outcomes == outcomes0 + Outcomes(config, ticks0[..n + 1])
      ensures clock.now == now0 + ChecksTime(config, ticks0[..n + 1]) + (n + 1) * Pause(config, intervalMinutes)
    {
      ghost var step := Pause(config, intervalMinutes);
      assert (n + 1) * step == n * step + step;
      var o := Tick(clock, session);
      OutcomesPrefix(config, ticks0, n);
      outcomes := outcomes + [o];
      if o.Raised? || intervalMinutes < 0 {
        clock.Sleep(MINUTE);
      } else {
        clock.Sleep(Minutes(intervalMinutes));
      }
    }
  }

  // ------------------------------------------------------------- the Lambda entry

  /** What the Lambda entry answers: the check, or the error that escaped. */
  datatype Body = Reported(check: AvailabilityCheck) | Error(error: string)

  datatype Response = Response(statusCode: nat, body: Body, publication: Option<Publication>, metrics: seq<Metric>)

  /** Lines 323-364: `lambda_handler`. The configuration and credentials files are read
      when the monitor is built; a configuration without a date raises from the check. Either escape answers
      500 with the error; otherwise 200 with the check, after the metrics and the
      alert. */
  method HandleEvent(files: Loaded, session: ServiceSession) returns (r: Response)
    ensures r.statusCode == 500 <==> files.LoadError? || files.config.targetDate.None?
    ensures r.statusCode == 500 ==>
      r.body == Error(if files.LoadError? then files.message else MISSING_DATE)
      && r.publication.None? && r.metrics == []
    ensures r.statusCode != 500 ==>
      r.statusCode == 200
      && r.body == Reported(CheckAvailability(None, files.config, session).value)
      && r.metrics == CheckMetrics(r.body.check)
      && r.publication == Notify(files.config, r.body.check)
  {
    if files.LoadError? {
      return Response(500, Error(files.message), None, []);
    }
    var c := RunCheck(None, files.config, session);
    if c.None? {
      return Response(500, Error(MISSING_DATE), None, []);
    }
    var metrics := CheckMetrics(c.value);
    var p: Option<Publication> := None;
    if c.value.success && c.value.totalAvailable > 0 {
      p := SendNotification(files.config, c.value);
    }
    return Response(200, Reported(c.value), p, metrics);
  }
}
