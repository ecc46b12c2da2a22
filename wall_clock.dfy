/** The wall clock the bots race against. A reading is a whole number of milliseconds of
    local time (already in the configured timezone) counted from a midnight; the time of
    day is the reading modulo one day. `time.sleep(d)` advances the clock by exactly `d`. */
module WallClock {
  import opened Text

  const SECOND: nat := 1000
  const MINUTE: nat := 60 * SECOND
  const HOUR: nat := 60 * MINUTE
  const DAY: nat := 24 * HOUR

  class Clock {
    var now: nat

    constructor(start: nat)
      ensures now == start
    {
      now := start;
    }

    /** `time.sleep(d / 1000)`. */
    method Sleep(d: nat)
      modifies this
      ensures now == old(now) + d
    {
      now := now + d;
    }
  }

  /** A pause of `m` minutes. */
  function Minutes(m: nat): nat {
    m * MINUTE
  }

  lemma {:induction false} MulAtLeast(d: int, b: int)
    requires d >= 1 && b > 0
    ensures d * b >= b
    decreases d
  {
    if d > 1 {
      MulAtLeast(d - 1, b);
      assert d * b == (d - 1) * b + b;
    }
  }

  lemma ProductSmall(d: int, b: int)
    requires b > 0 && -b < d * b < b
    ensures d == 0
  {
    if d >= 1 {
      MulAtLeast(d, b);
    } else if d <= -1 {
      MulAtLeast(-d, b);
    }
  }

  /** `a // b` and `a % b` are the unique quotient and remainder. */
  lemma DivModUnique(a: int, b: int, q: int, r: int)
    requires b > 0 && 0 <= r < b && a == q * b + r
    ensures a / b == q && a % b == r
  {
    var q', r' := a / b, a % b;
    assert (q - q') * b == r' - r;
    ProductSmall(q - q', b);
  }

  function TimeOfDay(now: nat): (t: nat)
    ensures t < DAY
  {
    now % DAY
  }

  /** The reading at the most recent midnight. */
  function DayStart(now: nat): (d: nat)
    ensures d <= now < d + DAY
    ensures d % DAY == 0
  {
    DivModUnique(now - now % DAY, DAY, now / DAY, 0);
    now - now % DAY
  }

  /** `h * 3600 + m * 60 + s` for the current `datetime.now().time()`. */
  function SecondOfDay(now: nat): (s: nat)
    ensures s < 86400
  {
    TimeOfDay(now) / SECOND
  }

  /** `now.replace(hour=h, minute=m, second=0, microsecond=0)`: today at h:m. */
  function ReleaseInstant(now: nat, h: nat, m: nat): nat {
    DayStart(now) + h * HOUR + m * MINUTE
  }

  /** `current_time < target_start_time`. */
  predicate BeforeRelease(now: nat, h: nat, m: nat) {
    now < ReleaseInstant(now, h, m)
  }

  /** Before the release the gate compares only the time of day. */
  lemma BeforeReleaseIsTimeOfDay(now: nat, h: nat, m: nat)
    ensures BeforeRelease(now, h, m) <==> TimeOfDay(now) < h * HOUR + m * MINUTE
  {
    assert DayStart(now) + TimeOfDay(now) == now;
  }

  /** A wait shorter than what is left of the day does not change the day. */
  lemma SameDay(now: nat, d: nat)
    requires TimeOfDay(now) + d < DAY
    ensures DayStart(now + d) == DayStart(now)
    ensures TimeOfDay(now + d) == TimeOfDay(now) + d
  {
    DivModUnique(now + d, DAY, now / DAY, now % DAY + d);
  }

  /** Sleeping `k` whole seconds within the day advances the second of the day by `k`. */
  lemma SleepSeconds(now: nat, k: nat)
    requires SecondOfDay(now) + k < 86400
    ensures SecondOfDay(now + k * SECOND) == SecondOfDay(now) + k
  {
    var t := TimeOfDay(now);
    var s := t / SECOND;
    DivModUnique(t, SECOND, s, t % SECOND);
    assert t + k * SECOND == (s + k) * SECOND + t % SECOND;
    assert t + k * SECOND < DAY;
    SameDay(now, k * SECOND);
    DivModUnique(t + k * SECOND, SECOND, s + k, t % SECOND);
  }

  /** While the release is ahead, a 0.1 s poll leaves the target where it was. */
  lemma PollKeepsTarget(now: nat, h: nat, m: nat)
    requires h < 24 && m < 60 && BeforeRelease(now, h, m)
    ensures ReleaseInstant(now + 100, h, m) == ReleaseInstant(now, h, m)
  {
    BeforeReleaseIsTimeOfDay(now, h, m);
    assert h * HOUR + m * MINUTE <= 23 * HOUR + 59 * MINUTE;
    SameDay(now, 100);
  }

  /** How far a polling gate still is from today's release: zero once it has come. */
  function GateDistance(now: nat, h: nat, m: nat): nat {
    if BeforeRelease(now, h, m) then ReleaseInstant(now, h, m) - now else 0
  }

  /** One 0.1 s poll while the release is ahead: the target stays put, the gate gets
      closer, and if it opens it opens within one poll of the target. */
  lemma PollStep(now: nat, h: nat, m: nat)
    requires h < 24 && m < 60 && BeforeRelease(now, h, m)
    ensures ReleaseInstant(now + 100, h, m) == ReleaseInstant(now, h, m)
    ensures GateDistance(now + 100, h, m) < GateDistance(now, h, m)
    ensures !BeforeRelease(now + 100, h, m) ==>
      ReleaseInstant(now, h, m) <= now + 100 < ReleaseInstant(now, h, m) + 100
  {
    PollKeepsTarget(now, h, m);
  }

  /** The polling gate `if now < target: time.sleep(0.1); continue`, with the target
      recomputed from each reading: it returns at the first poll on or after today's
      release, and at once when that has passed. */
  method AwaitRelease(clock: Clock, h: nat, m: nat)
    requires h < 24 && m < 60
    modifies clock
    ensures !BeforeRelease(clock.now, h, m) && old(clock.now) <= clock.now
    ensures !old(BeforeRelease(clock.now, h, m)) ==> clock.now == old(clock.now)
    ensures old(BeforeRelease(clock.now, h, m)) ==>
      var target := ReleaseInstant(old(clock.now), h, m);
      target <= clock.now < target + 100
  {
    ghost var target := ReleaseInstant(clock.now, h, m);
    ghost var waiting := BeforeRelease(clock.now, h, m);
    while BeforeRelease(clock.now, h, m)
      invariant old(clock.now) <= clock.now
      invariant !waiting ==> clock.now == old(clock.now)
      invariant waiting && BeforeRelease(clock.now, h, m) ==> ReleaseInstant(clock.now, h, m) == target
      invariant waiting && !BeforeRelease(clock.now, h, m) ==> target <= clock.now < target + 100
      decreases GateDistance(clock.now, h, m)
    {
      PollStep(clock.now, h, m);
      clock.Sleep(100);
    }
  }

  /** `map(int, s.split(":"))` unpacked into an hour and a minute and passed to
      `replace`: exactly two parts, each an `int`, in range for an hour and a minute;
      anything else raises. */
  function ParseHourMinute(s: string): (r: Option<(nat, nat)>)
    ensures r.Some? ==> r.value.0 < 24 && r.value.1 < 60
  {
    var parts := Split(s, ':');
    if |parts| != 2 then None
    else
      match (PyInt(parts[0]), PyInt(parts[1]))
      case (Some(h), Some(m)) =>
        if 0 <= h < 24 && 0 <= m < 60 then Some((h as nat, m as nat)) else None
      case _ => None
  }

  /** A configured "H:MM" reads back as the hour and minute it names. */
  lemma ParseHourMinuteOfText(h: nat, m: nat)
    requires h < 24 && m < 60
    ensures ParseHourMinute(NatToString(h) + ":" + NatToString(m)) == Some((h, m))
  {
    var a, b := NatToString(h), NatToString(m);
    var s := a + ":" + b;
    assert ':' !in a && ':' !in b by {
      assert forall k | 0 <= k < |a| :: IsDigit(a[k]);
      assert forall k | 0 <= k < |b| :: IsDigit(b[k]);
    }
    SplitAtFirst(a, b, ':');
    SplitNoSep(b, ':');
    assert s == a + [':'] + b;
    PyIntOfNatToString(h);
    PyIntOfNatToString(m);
  }
}
