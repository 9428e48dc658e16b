/** The focus-session timer: the `MM:SS` display, the once-a-second countdown
    that stops while paused and fires the completion callback on the tick that
    reaches zero, and the rotating motivational message. The interval and
    timeout scheduling become one discrete `Second` event. */
module FocusTimer {
  import opened Common

  const DemoDuration: nat := 10
  const FullDuration: nat := 1800

  /** `n.toString().padStart(2, '0')`. */
  function PadTwo(n: nat): (r: string)
    ensures |r| >= 2
    ensures forall k :: 0 <= k < |r| ==> '0' <= r[k] <= '9'
    ensures n < 100 ==> |r| == 2
    ensures ParseDecimal(r) == n
  {
    var d := DecimalString(n);
    if |d| < 2 then
      ParseLeadingZero(d);
      "0" + d
    else
      DecimalLength(n);
      d
  }

  /** A leading zero does not change the value of a digit string. */
  lemma {:induction false} ParseLeadingZero(d: string)
    requires forall k :: 0 <= k < |d| ==> '0' <= d[k] <= '9'
    ensures ParseDecimal("0" + d) == ParseDecimal(d)
    decreases |d|
  {
    if d == [] {
    } else {
      var z := "0" + d;
      assert z[..|z| - 1] == "0" + d[..|d| - 1];
      ParseLeadingZero(d[..|d| - 1]);
    }
  }

  /** Numbers below 100 have at most two digits. */
  lemma DecimalLength(n: nat)
    ensures n < 10 ==> |DecimalString(n)| == 1
    ensures 10 <= n < 100 ==> |DecimalString(n)| == 2
  {
    if 10 <= n < 100 {
      assert n / 10 < 10;
    }
  }

  /** `formatTime`: minutes, a colon and seconds, each padded to two digits. */
  function FormatTime(seconds: nat): (r: string)
    ensures seconds < 6000 ==> |r| == 5 && r[2] == ':'
  {
    PadTwo(seconds / 60) + ":" + PadTwo(seconds % 60)
  }

  /** Reads an `MM:SS` display back as seconds. */
  function ParseTime(t: string): Option<int> {
    if |t| == 5 && t[2] == ':' && (forall k :: 0 <= k < 5 && k != 2 ==> '0' <= t[k] <= '9') then
      Some(ParseDecimal(t[..2]) * 60 + ParseDecimal(t[3..]))
    else None
  }

  /** Below 100 minutes the display is exact: it reads back as the same
      number of seconds, and its seconds field is below 60. */
  lemma FormatTimeRoundTrip(seconds: nat)
    requires seconds < 6000
    ensures ParseTime(FormatTime(seconds)) == Some(seconds)
    ensures ParseDecimal(FormatTime(seconds)[3..]) < 60
  {
    var m, s := PadTwo(seconds / 60), PadTwo(seconds % 60);
    var r := FormatTime(seconds);
    assert r[..2] == m;
    assert r[3..] == s;
  }

  lemma PadTwoZero()
    ensures PadTwo(0) == "00"
  {
    assert DecimalString(0) == "0";
  }

  lemma PadTwoTens(d: nat)
    requires 1 <= d <= 9
    ensures PadTwo(d * 10) == [Digit(d), '0']
  {
    assert DecimalString(d) == [Digit(d)];
    assert DecimalString(d * 10) == DecimalString(d) + [Digit(0)];
    DecimalLength(d * 10);
  }

  /** The demo countdown starts at "00:10". */
  lemma DemoDisplay()
    ensures FormatTime(DemoDuration) == "00:10"
  {
    assert DemoDuration / 60 == 0 && DemoDuration % 60 == 1 * 10;
    PadTwoZero();
    PadTwoTens(1);
    assert Digit(1) == '1';
    assert FormatTime(DemoDuration) == "00" + ":" + ['1', '0'];
  }

  /** The full session would start at "30:00". */
  lemma FullDisplay()
    ensures FormatTime(FullDuration) == "30:00"
  {
    assert FullDuration / 60 == 30 && FullDuration % 60 == 0;
    PadTwoZero();
    PadTwoTens(3);
    assert Digit(3) == '3';
    assert FormatTime(FullDuration) == ['3', '0'] + ":" + "00";
  }

  // ---------------------------------------------------------------------
  // The countdown

  /** `completions` counts the scheduled calls of `onComplete`. */
  datatype Timer = Timer(timeRemaining: int, isPaused: bool, completions: nat)

  const StartTimer: Timer := Timer(DemoDuration, false, 0)

  datatype TimerEvent = Second | TogglePause

  /** One event: a second elapses (no interval runs while paused or at zero;
      the tick from 1 or less lands on 0 and schedules completion), or the
      pause button flips the flag. */
  function TimerStep(t: Timer, e: TimerEvent): (r: Timer)
    ensures r.timeRemaining <= t.timeRemaining
    ensures t.timeRemaining >= 0 ==> r.timeRemaining >= 0
    ensures e == Second && t.timeRemaining > 0 && !t.isPaused ==>
              r.timeRemaining == (if t.timeRemaining <= 1 then 0 else t.timeRemaining - 1)
    ensures t.isPaused || e == TogglePause ==> r.timeRemaining == t.timeRemaining
    ensures r.completions == t.completions + (if r.timeRemaining == 0 && t.timeRemaining > 0 then 1 else 0)
  {
    match e
    case TogglePause => t.(isPaused := !t.isPaused)
    case Second =>
      if t.isPaused || t.timeRemaining <= 0 then t
      else if t.timeRemaining <= 1 then t.(timeRemaining := 0, completions := t.completions + 1)
      else t.(timeRemaining := t.timeRemaining - 1)
  }

  /** The countdown's invariant: the remaining time stays within the demo
      duration, and completion has been scheduled once exactly when it is 0. */
  predicate Valid(t: Timer) {
    0 <= t.timeRemaining <= DemoDuration && t.completions == (if t.timeRemaining == 0 then 1 else 0)
  }

  function RunTimer(t: Timer, events: seq<TimerEvent>): Timer
    decreases |events|
  {
    if events == [] then t else RunTimer(TimerStep(t, events[0]), events[1..])
  }

  /** Over any sequence of seconds and pauses, the time never rises, never
      leaves [0, demo duration], and completion is scheduled at most once. */
  lemma {:induction false} RunTimerInvariant(t: Timer, events: seq<TimerEvent>)
    requires Valid(t)
    ensures Valid(RunTimer(t, events))
    ensures RunTimer(t, events).timeRemaining <= t.timeRemaining
    ensures RunTimer(t, events).completions <= 1
    decreases |events|
  {
    if events != [] {
      RunTimerInvariant(TimerStep(t, events[0]), events[1..]);
    }
  }

  /** Unpaused, the demo countdown completes after exactly ten seconds. */
  lemma {:induction false} CountdownCompletes(t: Timer, n: nat)
    requires Valid(t) && !t.isPaused && n == t.timeRemaining
    ensures var r := RunTimer(t, seq(n, _ => Second));
            r.timeRemaining == 0 && r.completions == 1
    decreases n
  {
    if n > 0 {
      var s := seq(n, _ => Second);
      assert s[1..] == seq(n - 1, _ => Second);
      CountdownCompletes(TimerStep(t, Second), n - 1);
    }
  }

  /** `%` of JavaScript for a positive divisor: the sign follows the dividend. */
  function JsRem(a: int, b: int): int
    requires b > 0
  {
    if a >= 0 then a % b else -((-a) % b)
  }

  /** The motivational message shown: one of four, changing every three
      seconds of elapsed time. */
  function MessageIndex(timeRemaining: int): (i: int)
    ensures timeRemaining <= DemoDuration ==> 0 <= i < 4
  {
    JsRem((DemoDuration - timeRemaining) / 3, 4)
  }

  /** For every time the countdown can show, the message index is valid. */
  lemma MessageIndexInRange(t: Timer)
    requires Valid(t)
    ensures 0 <= MessageIndex(t.timeRemaining) < 4
  {
  }

  /** The message advances with elapsed time and wraps after the fourth. */
  lemma MessageIndexSchedule()
    ensures MessageIndex(10) == 0 && MessageIndex(7) == 1 && MessageIndex(4) == 2
    ensures MessageIndex(1) == 3 && MessageIndex(0) == 3
  {
  }
}
