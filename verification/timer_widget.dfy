/**
 * The study timer (src/components/learning/DuolingoTimerWidget.tsx): the
 * clock it starts from, the once-a-second tick, and the two-digit rendering
 * of each field. The interval timer itself is left out; ticks are applied
 * explicitly.
 */
module TimerWidget {
  import opened Common

  datatype Time = Time(hours: int, minutes: int, seconds: int)

  /** The state the widget starts in: five minutes. */
  const Start: Time := Time(0, 5, 0)

  predicate Valid(t: Time) {
    t.hours >= 0 && 0 <= t.minutes < 60 && 0 <= t.seconds < 60
  }

  /** The time in seconds. */
  function TotalSeconds(t: Time): int {
    t.hours * 3600 + t.minutes * 60 + t.seconds
  }

  /** The clock showing a number of seconds. */
  function FromSeconds(n: nat): (t: Time)
    ensures Valid(t) && TotalSeconds(t) == n
  {
    Time(n / 3600, (n % 3600) / 60, n % 60)
  }

  /** A valid clock is determined by its seconds. */
  lemma {:induction false} FromSecondsOfValid(t: Time)
    requires Valid(t)
    ensures FromSeconds(TotalSeconds(t)) == t
  {
    var n := TotalSeconds(t);
    var r := t.minutes * 60 + t.seconds;
    assert 0 <= r < 3600;
    assert n == t.hours * 3600 + r;
    assert n / 3600 == t.hours && n % 3600 == r;
    assert r / 60 == t.minutes && r % 60 == t.seconds;
    assert n % 60 == t.seconds by {
      assert n == (t.hours * 60 + t.minutes) * 60 + t.seconds;
    }
  }

  /** One tick of the interval: seconds roll over into minutes, minutes into hours. */
  function Tick(t: Time): (r: Time)
    ensures Valid(t) ==> Valid(r) && TotalSeconds(r) == TotalSeconds(t) + 1
  {
    var s := t.seconds + 1;
    if s >= 60 then
      var m := t.minutes + 1;
      if m >= 60 then Time(t.hours + 1, 0, 0) else Time(t.hours, m, 0)
    else Time(t.hours, t.minutes, s)
  }

  /** On a valid clock a tick is the clock of one second later. */
  lemma TickIsNextSecond(t: Time)
    requires Valid(t)
    ensures Tick(t) == FromSeconds(TotalSeconds(t) + 1)
  {
    FromSecondsOfValid(Tick(t));
  }

  function Ticks(t: Time, n: nat): Time {
    if n == 0 then t else Tick(Ticks(t, n - 1))
  }

  /** After `n` ticks the widget shows five minutes plus `n` seconds. */
  lemma {:induction false} TicksFromStart(n: nat)
    ensures Valid(Ticks(Start, n)) && TotalSeconds(Ticks(Start, n)) == 300 + n
  {
    if n > 0 {
      TicksFromStart(n - 1);
    }
  }

  /** `n.toString().padStart(2, '0')`. */
  function FormatNumber(n: nat): (s: string)
    ensures |s| >= 2 && AllDigits(s)
    ensures |s| == 2 || s == NatStr(n)
  {
    var d := NatStr(n);
    if |d| < 2 then "0" + d else d
  }

  /** Reading a rendered field back gives the number: the padding adds only a leading zero. */
  lemma FormatNumberRoundTrip(n: nat)
    ensures ParseDigits(FormatNumber(n)) == n
  {
    ParseNatStr(n);
    if |NatStr(n)| < 2 {
      ParseLeadingZero(NatStr(n));
    }
  }
}
