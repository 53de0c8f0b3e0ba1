/** The rally countdown: the remaining time, a distance in milliseconds to the
    rally's start, split into days, hours, minutes and seconds on every tick;
    the timer stops once the distance is no longer positive. Each unit is
    shown as its decimal digits padded to two with leading zeros. */
module Countdown {
  import opened Arith

  datatype TimeLeft = TimeLeft(days: nat, hours: nat, minutes: nat, seconds: nat)

  /** What the page shows before the first tick. */
  const InitialTimeLeft: TimeLeft := TimeLeft(26, 1, 36, 16)

  const MsPerSecond: nat := 1000
  const MsPerMinute: nat := 60000
  const MsPerHour: nat := 3600000
  const MsPerDay: nat := 86400000

  /** The outcome of one tick: the new time left and whether the timer keeps
      running. */
  datatype Tick = Tick(timeLeft: TimeLeft, running: bool)

  /** One tick of the interval, for `distance` = target time - now in whole
      milliseconds. The floors of the fractional quotients and remainders are
      integer division and remainder for a positive distance. */
  function OnTick(distance: int): Tick {
    if distance > 0 then
      Tick(TimeLeft(distance / MsPerDay, (distance / MsPerHour) % 24, (distance / MsPerMinute) % 60,
        (distance / MsPerSecond) % 60), true)
    else
      Tick(TimeLeft(0, 0, 0, 0), false)
  }

  /** The whole seconds a time left stands for. */
  function TotalSeconds(t: TimeLeft): nat {
    t.days * 86400 + t.hours * 3600 + t.minutes * 60 + t.seconds
  }

  /** A time left whose hours, minutes and seconds are in range. */
  predicate Normal(t: TimeLeft) {
    t.hours < 24 && t.minutes < 60 && t.seconds < 60
  }

  /** The split of s whole seconds into units. */
  lemma {:induction false} SecondsSplit(s: nat)
    ensures s == (s / 86400) * 86400 + ((s / 3600) % 24) * 3600 + ((s / 60) % 60) * 60 + s % 60
  {
    DivDiv(s, 60, 60);
    DivDiv(s, 3600, 24);
    var m := s / 60;
    var h := m / 60;
    assert s == m * 60 + s % 60;
    assert m == h * 60 + m % 60;
    assert h == (h / 24) * 24 + h % 24;
  }

  /** A positive distance is split into normal units that add up to its whole
      seconds, with days its whole days; a distance that is not positive shows
      zero everywhere and stops the timer. */
  lemma {:induction false} OnTickSpec(distance: int)
    ensures var tick := OnTick(distance);
      && Normal(tick.timeLeft)
      && (distance > 0 ==>
            tick.running && TotalSeconds(tick.timeLeft) == distance / 1000
            && tick.timeLeft.days == distance / 86400000)
      && (distance <= 0 ==> !tick.running && tick.timeLeft == TimeLeft(0, 0, 0, 0))
  {
    if distance > 0 {
      var s := distance / 1000;
      DivDiv(distance, 1000, 60);
      DivDiv(distance, 1000, 3600);
      DivDiv(distance, 1000, 86400);
      SecondsSplit(s);
    }
  }

  /** Ticking at any instant within a second after a normal time left gives
      that time left back: the split is the inverse of `TotalSeconds`. */
  lemma {:induction false} OnTickInverse(t: TimeLeft, ms: nat)
    requires Normal(t) && ms < 1000 && TotalSeconds(t) * 1000 + ms > 0
    ensures OnTick(TotalSeconds(t) * 1000 + ms) == Tick(t, true)
  {
    var distance := TotalSeconds(t) * 1000 + ms;
    var s := TotalSeconds(t);
    var h := t.days * 24 + t.hours;
    var m := h * 60 + t.minutes;
    assert s == m * 60 + t.seconds;
    DivMod(distance, 1000, s, ms);
    DivMod(s, 60, m, t.seconds);
    DivMod(m, 60, h, t.minutes);
    DivMod(h, 24, t.days, t.hours);
    DivDiv(distance, 1000, 60);
    DivDiv(distance, 1000, 3600);
    DivDiv(distance, 1000, 86400);
    DivDiv(s, 60, 60);
    DivDiv(s, 3600, 24);
  }

  // ---------------------------------------------------------------------------
  // Display

  function DigitChar(d: nat): char
    requires d < 10
  {
    "0123456789"[d]
  }

  function DigitValue(c: char): nat {
    if '0' <= c <= '9' then (c as int - '0' as int) as nat else 0
  }

  predicate IsDigit(c: char) {
    '0' <= c <= '9'
  }

  /** `String(n)` for a non-negative integer: its decimal digits, most
      significant first, without leading zeros. */
  function Decimal(n: nat): (s: string)
    ensures |s| >= 1
  {
    if n < 10 then [DigitChar(n)] else Decimal(n / 10) + [DigitChar(n % 10)]
  }

  /** The value of a string of decimal digits. */
  function ParseDecimal(s: string): nat {
    if s == [] then 0 else ParseDecimal(s[..|s| - 1]) * 10 + DigitValue(s[|s| - 1])
  }

  lemma {:induction false} DigitRoundTrip(d: nat)
    requires d < 10
    ensures IsDigit(DigitChar(d)) && DigitValue(DigitChar(d)) == d
  {
  }

  /** `Decimal` writes only digits, never a leading zero except for 0 itself,
      and reading its digits back gives the number. */
  lemma {:induction false} DecimalSpec(n: nat)
    ensures forall i :: 0 <= i < |Decimal(n)| ==> IsDigit(Decimal(n)[i])
    ensures Decimal(n)[0] == '0' <==> n == 0
    ensures ParseDecimal(Decimal(n)) == n
  {
    if n < 10 {
      DigitRoundTrip(n);
      assert [DigitChar(n)][..0] == [];
    } else {
      DecimalSpec(n / 10);
      DigitRoundTrip(n % 10);
      var s := Decimal(n);
      assert s[..|s| - 1] == Decimal(n / 10);
    }
  }

  /** `s.padStart(width, fill)`. */
  function PadStart(s: string, width: nat, fill: char): string {
    if |s| >= width then s else seq(width - |s|, _ => fill) + s
  }

  /** The padded string ends with `s`, is `s` when `s` is already at least
      `width` long, and is otherwise exactly `width` long with only `fill`
      in front of `s`. */
  lemma {:induction false} PadStartSpec(s: string, width: nat, fill: char)
    ensures var p := PadStart(s, width, fill);
      && |p| == (if |s| >= width then |s| else width)
      && p[|p| - |s|..] == s
      && (forall i :: 0 <= i < |p| - |s| ==> p[i] == fill)
      && (|s| >= width ==> p == s)
  {
  }

  /** A leading zero does not change the value of a digit string. */
  lemma {:induction false} ParseLeadingZero(s: string)
    ensures ParseDecimal("0" + s) == ParseDecimal(s)
  {
    if s != [] {
      var t := "0" + s;
      assert t[..|t| - 1] == "0" + s[..|s| - 1];
      ParseLeadingZero(s[..|s| - 1]);
    } else {
      assert ParseDecimal("0"[..0]) == 0;
    }
  }

  /** The text shown for one unit. */
  function Display(n: nat): string {
    PadStart(Decimal(n), 2, '0')
  }

  /** The shown text is at least two characters of digits, exactly two for a
      value below 100, and reads back as the value. */
  lemma {:induction false} DisplaySpec(n: nat)
    ensures var d := Display(n);
      && |d| >= 2 && (n < 100 ==> |d| == 2)
      && (forall i :: 0 <= i < |d| ==> IsDigit(d[i]))
      && ParseDecimal(d) == n
  {
    DecimalSpec(n);
    PadStartSpec(Decimal(n), 2, '0');
    var s := Decimal(n);
    if n < 10 {
      assert Display(n) == "0" + s;
      ParseLeadingZero(s);
    } else if n < 100 {
      assert s == Decimal(n / 10) + [DigitChar(n % 10)];
      assert |Decimal(n / 10)| == 1;
    }
  }
}
