/** The pure helpers of the launchpad page (`app/launchpad/page.tsx`): the once-a-second
    countdown updater, the capped launch counter updater, the values derived from the
    counter, and `formatTime`. The timers that call the updaters are not modelled. */
module LaunchpadPage {
  import opened Options
  import opened Decimal

  /** The countdown's initial and wrap-around value, in seconds. */
  const CountdownStart: int := 3600
  const MaxLaunches: int := 10

  /** The `setTimeRemaining` updater. */
  function CountdownStep(prev: int): (next: int)
    ensures 1 <= prev <= CountdownStart ==> 1 <= next <= CountdownStart
    ensures prev > 1 ==> next == prev - 1
    ensures prev <= 1 ==> next == CountdownStart
  {
    if prev <= 1 then CountdownStart else prev - 1
  }

  /** The countdown after `n` updates. */
  function Countdown(t: int, n: nat): int
    decreases n
  {
    if n == 0 then t else Countdown(CountdownStep(t), n - 1)
  }

  lemma {:induction false} CountdownCompose(t: int, a: nat, b: nat)
    ensures Countdown(t, a + b) == Countdown(Countdown(t, a), b)
    decreases a
  {
    if a > 0 {
      CountdownCompose(CountdownStep(t), a - 1, b);
    }
  }

  /** Before reaching 1, each update takes one second off. */
  lemma {:induction false} CountdownDescends(t: int, k: nat)
    requires k < t
    ensures Countdown(t, k) == t - k
    decreases k
  {
    if k > 0 {
      CountdownDescends(t - 1, k - 1);
    }
  }

  /** From any value in [1, 3600] the countdown stays in [1, 3600]. */
  lemma {:induction false} CountdownInRange(t: int, n: nat)
    requires 1 <= t <= CountdownStart
    ensures 1 <= Countdown(t, n) <= CountdownStart
    decreases n
  {
    if n > 0 {
      CountdownInRange(CountdownStep(t), n - 1);
    }
  }

  /** The countdown is periodic: 3600 updates bring every value in [1, 3600] back. */
  lemma CountdownPeriod(t: int)
    requires 1 <= t <= CountdownStart
    ensures Countdown(t, CountdownStart as nat) == t
  {
    var n := CountdownStart as nat;
    CountdownCompose(t, t as nat, (n - t) as nat);
    if t > 1 {
      CountdownDescends(t, (t - 1) as nat);
    }
    CountdownCompose(t, (t - 1) as nat, 1);
    assert Countdown(t, t as nat) == CountdownStart;
    CountdownDescends(CountdownStart, (n - t) as nat);
  }

  /** The `setLaunchCount` updater: `Math.min(prev + 1, 10)`. */
  function LaunchCounterStep(prev: int): (next: int)
    ensures 0 <= prev <= MaxLaunches ==> 0 <= next <= MaxLaunches
    ensures prev >= MaxLaunches ==> next == MaxLaunches
    ensures prev < MaxLaunches ==> next == prev + 1
  {
    if prev + 1 < MaxLaunches then prev + 1 else MaxLaunches
  }

  /** The counter after `n` launches. */
  function LaunchCounter(n: nat): int {
    if n == 0 then 0 else LaunchCounterStep(LaunchCounter(n - 1))
  }

  /** After `n` launches from 0 the counter shows min(n, 10). */
  lemma {:induction false} LaunchCounterValue(n: nat)
    ensures LaunchCounter(n) == if n < MaxLaunches then n else MaxLaunches
  {
    if n > 0 {
      LaunchCounterValue(n - 1);
    }
  }

  /** The form's `disabled` flag. */
  predicate FormDisabled(launchCount: int): (r: bool)
    // disabled exactly when one more launch would no longer move the counter up
    ensures r <==> LaunchCounterStep(launchCount) != launchCount + 1
  {
    launchCount >= MaxLaunches
  }

  /** The "launches left" figure. */
  function RemainingShown(launchCount: int): (r: int)
    ensures 0 <= launchCount <= MaxLaunches ==> 0 <= r <= MaxLaunches
    ensures r == 0 ==> FormDisabled(launchCount)
  {
    MaxLaunches - launchCount
  }

  /** Along the counter's history, the form is disabled exactly when no launch is left,
      and the figure shown is never negative. */
  lemma DisabledWhenNoneLeft(n: nat)
    ensures FormDisabled(LaunchCounter(n)) <==> RemainingShown(LaunchCounter(n)) == 0
    ensures RemainingShown(LaunchCounter(n)) >= 0
  {
    LaunchCounterValue(n);
  }

  /** The three fields `formatTime` prints. */

  /** The whole hours in `seconds`. */
  function Hours(seconds: nat): (h: nat)
    ensures h * 3600 <= seconds < (h + 1) * 3600
  {
    seconds / 3600
  }

  /** The whole minutes in what is left after the hours. */
  function Minutes(seconds: nat): (m: nat)
    ensures m < 60
    ensures m * 60 <= seconds - Hours(seconds) * 3600 < (m + 1) * 60
  {
    seconds % 3600 / 60
  }

  /** The seconds past the last whole minute. */
  function Secs(seconds: nat): (s: nat)
    ensures s < 60 && (seconds - s) % 60 == 0
  {
    seconds % 60
  }

  /** The split is exact: minutes and seconds are below 60 and recombine to `seconds`. */
  lemma SplitTime(seconds: nat)
    ensures Minutes(seconds) < 60 && Secs(seconds) < 60
    ensures Hours(seconds) * 3600 + Minutes(seconds) * 60 + Secs(seconds) == seconds
  {
    var h, rest := seconds / 3600, seconds % 3600;
    var m, sec := rest / 60, rest % 60;
    assert seconds == 60 * (60 * h + m) + sec;
    var x, y := seconds / 60, seconds % 60;
    assert 60 * (x - 60 * h - m) == sec - y;
  }

  /** Where the colons and fields of a joined `HH:MM:SS` text sit. */
  lemma ParseJoined(hs: string, ms: string, ss: string)
    requires |hs| >= 2 && |ms| == 2 && |ss| == 2
    ensures var t := hs + ":" + ms + ":" + ss;
            && |t| >= 8 && t[|t| - 6] == ':' && t[|t| - 3] == ':'
            && t[..|t| - 6] == hs && t[|t| - 5..|t| - 3] == ms && t[|t| - 2..] == ss
  {
  }

  /** Minutes and seconds print as two characters, hours as at least two, and exactly
      two below 100 hours. */
  lemma FieldWidths(seconds: nat)
    ensures |PadStart2(Dec(Minutes(seconds)))| == 2 && |PadStart2(Dec(Secs(seconds)))| == 2
    ensures |PadStart2(Dec(Hours(seconds)))| >= 2
    ensures seconds < 360000 ==> |PadStart2(Dec(Hours(seconds)))| == 2
  {
    SplitTime(seconds);
    assert seconds < 360000 ==> Hours(seconds) < 100;
  }

  /** `formatTime(seconds)`: `HH:MM:SS`, each field padded to at least two digits. */
  function FormatTime(seconds: nat): (r: string)
    ensures seconds < 360000 ==> |r| == 8
    ensures |r| >= 8 && r[|r| - 6] == ':' && r[|r| - 3] == ':'
    // the three fields read back as the hours, the minutes and the seconds
    ensures ParseDecimal(r[..|r| - 6]) == Some(Hours(seconds))
    ensures ParseDecimal(r[|r| - 5..|r| - 3]) == Some(Minutes(seconds))
    ensures ParseDecimal(r[|r| - 2..]) == Some(Secs(seconds))
  {
    SplitTime(seconds);
    var hs := PadStart2(Dec(Hours(seconds)));
    var ms := PadStart2(Dec(Minutes(seconds)));
    var ss := PadStart2(Dec(Secs(seconds)));
    FieldWidths(seconds);
    PaddedRoundTrip(Hours(seconds));
    PaddedRoundTrip(Minutes(seconds));
    PaddedRoundTrip(Secs(seconds));
    ParseJoined(hs, ms, ss);
    hs + ":" + ms + ":" + ss
  }

  /** Reads a `formatTime` text back: the hours are everything before the last six
      characters, minutes and seconds the two-digit fields after each colon. */
  function ParseTime(t: string): Option<nat> {
    if |t| < 8 || t[|t| - 6] != ':' || t[|t| - 3] != ':' then None
    else
      match (ParseDecimal(t[..|t| - 6]), ParseDecimal(t[|t| - 5..|t| - 3]), ParseDecimal(t[|t| - 2..]))
      case (Some(h), Some(m), Some(s)) => Some(h * 3600 + m * 60 + s)
      case _ => None
  }

  /** Reading the displayed time back gives the number of seconds. */
  lemma FormatTimeRoundTrip(seconds: nat)
    ensures ParseTime(FormatTime(seconds)) == Some(seconds)
  {
    SplitTime(seconds);
    var hs := PadStart2(Dec(Hours(seconds)));
    var ms := PadStart2(Dec(Minutes(seconds)));
    var ss := PadStart2(Dec(Secs(seconds)));
    PaddedRoundTrip(Hours(seconds));
    PaddedRoundTrip(Minutes(seconds));
    PaddedRoundTrip(Secs(seconds));
    ParseJoined(hs, ms, ss);
    assert FormatTime(seconds) == hs + ":" + ms + ":" + ss;
  }
}
