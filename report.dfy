/** What the availability monitors share: the `AvailabilityCheck` record (declared alike
    in `foreup_bot/aws/lambda_handler.py`, `foreup_bot/monitoring/playwright_monitor.py`
    and `foreup_bot/monitoring/monitoring_service.py`), the parsed configuration they
    read, the rule for when a check is worth an alert, the alert text built line by line,
    and the metrics batch. Timestamps are left out. */
module Report {
  import opened Text

  /** The keys of the parsed JSON configuration that the monitors read; a missing key
      is `None`. `monitoringTopic` is `config["monitoring"]["sns_topic_arn"]`,
      `topic` the top-level `config["sns_topic_arn"]`. */
  datatype Config = Config(
    targetDate: Option<string>,
    numPlayers: Option<int>,
    topic: Option<string>,
    monitoringTopic: Option<string>)

  /** How the configuration and credentials files load: parsed, or the error raised. */
  datatype Loaded = Loaded(config: Config) | LoadError(message: string)

  /** `config.get("num_players", 4)`. */
  function RequiredPlayers(config: Config): int {
    config.numPlayers.GetOr(4)
  }

  /** One check's outcome. `errorMessage` is `None` where the field keeps its default. */
  datatype AvailabilityCheck = AvailabilityCheck(
    date: string,
    availableTimes: seq<string>,
    totalAvailable: nat,
    success: bool,
    errorMessage: Option<string>)

  /** The prefix of a failed check's error message. */
  const CHECK_FAILED: string := "Availability check failed: "

  /** `str(KeyError("target_date"))`: what a configuration without a date raises. */
  const MISSING_DATE: string := "'target_date'"

  /** The shape every check returns: on success the count is the length of the list; on
      failure the list is empty, the count zero and the error is given. */
  predicate WellFormed(c: AvailabilityCheck) {
    if c.success then c.totalAvailable == |c.availableTimes| && c.errorMessage.None?
    else c.availableTimes == [] && c.totalAvailable == 0 && c.errorMessage.Some?
  }

  function Succeeded(date: string, times: seq<string>): (c: AvailabilityCheck)
    ensures WellFormed(c) && c.success && c.date == date && c.availableTimes == times
  {
    AvailabilityCheck(date, times, |times|, true, None)
  }

  function Failed(date: string, message: string): (c: AvailabilityCheck)
    ensures WellFormed(c) && !c.success && c.date == date && c.errorMessage == Some(message)
  {
    AvailabilityCheck(date, [], 0, false, Some(message))
  }

  /** `check_result.success and check_result.total_available > 0`. */
  predicate ShouldNotify(c: AvailabilityCheck) {
    c.success && c.totalAvailable > 0
  }

  /** `f"{time_str} ({available_spots} spots)"`: how a found tee time is written. */
  function SlotText(time: string, spots: nat): string {
    time + " (" + NatToString(spots) + " spots)"
  }

  // ------------------------------------------------------------ the alert

  /** The lines of the alert: a header naming the date, the count, and `- {slot}` per
      slot, in the order of the list. */
  function AlertLines(date: string, total: nat, times: seq<string>): (lines: seq<string>)
    ensures |lines| == 2 + |times|
    ensures forall k | 0 <= k < |times| :: lines[2 + k] == "- " + times[k]
  {
    ["Tee times available for " + date + "!", "Found " + NatToString(total) + " available times:"]
    + seq(|times|, k requires 0 <= k < |times| => "- " + times[k])
  }

  /** Each line followed by a newline: what `message += f"...\n"` accumulates. */
  function Terminated(lines: seq<string>): string
    decreases |lines|
  {
    if lines == [] then "" else lines[0] + "\n" + Terminated(lines[1..])
  }

  function AlertMessage(date: string, total: nat, times: seq<string>): string {
    Terminated(AlertLines(date, total, times))
  }

  lemma {:induction false} TerminatedSnoc(lines: seq<string>, line: string)
    ensures Terminated(lines + [line]) == Terminated(lines) + line + "\n"
    decreases |lines|
  {
    if lines == [] {
      assert [line][1..] == [];
    } else {
      assert (lines + [line])[1..] == lines[1..] + [line];
      TerminatedSnoc(lines[1..], line);
    }
  }

  lemma {:induction false} TerminatedIsJoin(lines: seq<string>)
    ensures Terminated(lines) == Join(lines + [""], '\n')
    decreases |lines|
  {
    if lines != [] {
      TerminatedIsJoin(lines[1..]);
      assert (lines + [""])[1..] == lines[1..] + [""];
    }
  }

  lemma NoNewlineInDigits(s: string)
    requires AllDigits(s)
    ensures '\n' !in s
  {
  }

  lemma NoNewlineInConcat(a: string, b: string)
    requires '\n' !in a && '\n' !in b
    ensures '\n' !in a + b
  {
  }

  /** Read line by line, the alert gives back its header, its count line and one line per
      slot, then the empty tail after the final newline. */
  lemma AlertMessageLines(date: string, total: nat, times: seq<string>)
    requires '\n' !in date
    requires forall k | 0 <= k < |times| :: '\n' !in times[k]
    ensures Split(AlertMessage(date, total, times), '\n') == AlertLines(date, total, times) + [""]
  {
    var lines := AlertLines(date, total, times);
    TerminatedIsJoin(lines);
    NoNewlineInConcat("Tee times available for ", date);
    NoNewlineInConcat("Tee times available for " + date, "!");
    NoNewlineInDigits(NatToString(total));
    NoNewlineInConcat("Found ", NatToString(total));
    NoNewlineInConcat("Found " + NatToString(total), " available times:");
    forall k | 2 <= k < |lines|
      ensures '\n' !in lines[k]
    {
      NoNewlineInConcat("- ", times[k - 2]);
    }
    var all := lines + [""];
    forall k | 0 <= k < |all|
      ensures '\n' !in all[k]
    {
      if 2 <= k < |lines| {
        assert all[k] == lines[2 + (k - 2)];
      }
    }
    SplitOfJoin(all, '\n');
  }

  /** `send_notification`'s message, built as the source builds it: a header line, a
      count line, then one line per slot appended in order; nothing unless the check
      succeeded and found something. */
  method BuildAlert(c: AvailabilityCheck) returns (message: Option<string>)
    ensures message.Some? <==> ShouldNotify(c)
    ensures message.Some? ==> message.value == AlertMessage(c.date, c.totalAvailable, c.availableTimes)
  {
    if !(c.success && c.totalAvailable > 0) {
      return None;
    }
    var text := "Tee times available for " + c.date + "!\n";
    text := text + "Found " + NatToString(c.totalAvailable) + " available times:\n";
    var times := c.availableTimes;
    var i := 0;
    ghost var head := ["Tee times available for " + c.date + "!", "Found " + NatToString(c.totalAvailable) + " available times:"];
    assert AlertLines(c.date, c.totalAvailable, times[..0]) == head;
    assert Terminated(head[1..][1..]) == "";
    assert Terminated(head[1..]) == head[1] + "\n";
    assert Terminated(head) == head[0] + "\n" + (head[1] + "\n");
    while i < |times|
      invariant 0 <= i <= |times|
      invariant text == Terminated(AlertLines(c.date, c.totalAvailable, times[..i]))
    {
      assert AlertLines(c.date, c.totalAvailable, times[..i + 1])
        == AlertLines(c.date, c.totalAvailable, times[..i]) + ["- " + times[i]];
      TerminatedSnoc(AlertLines(c.date, c.totalAvailable, times[..i]), "- " + times[i]);
      text := text + "- " + times[i] + "\n";
      i := i + 1;
    }
    assert times[..i] == times;
    return Some(text);
  }

  // ------------------------------------------------------------- metrics

  datatype Metric = Metric(name: string, value: int)

  /** The `AvailableTeeTimes` and `CheckSuccess` data points the monitors put. */
  function CheckMetrics(c: AvailabilityCheck): (batch: seq<Metric>)
    ensures |batch| == 2
    ensures batch[0] == Metric("AvailableTeeTimes", c.totalAvailable)
    ensures batch[1].name == "CheckSuccess" && (batch[1].value == 1 <==> c.success)
    ensures batch[1].value == 0 || batch[1].value == 1
  {
    [Metric("AvailableTeeTimes", c.totalAvailable), Metric("CheckSuccess", if c.success then 1 else 0)]
  }
}
