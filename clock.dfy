/** Text forms of time: the `MM:SS` countdown display (`formatTime`) and the
    `HH:MM` time-of-day strings that tournament start and end times are stored
    as, read the way `split(':').map(Number)` reads them. */
module Clock {
  import opened Common

  /** Milliseconds in one minute: tour instants are millisecond timestamps. */
  const MsPerMinute: int := 60000

  predicate IsDigit(ch: char)
  {
    '0' <= ch <= '9'
  }

  function DigitValue(ch: char): int
  {
    ch as int - '0' as int
  }

  function DigitChar(d: nat): char
    requires d < 10
  {
    (d + '0' as int) as char
  }

  /** `n.toString()` for a non-negative integer. */
  function Decimal(n: nat): string
  {
    if n < 10 then [DigitChar(n)] else Decimal(n / 10) + [DigitChar(n % 10)]
  }

  /** The number a string of decimal digits denotes. */
  function DecimalValue(s: string): int
  {
    if s == [] then 0 else DecimalValue(s[..|s| - 1]) * 10 + DigitValue(s[|s| - 1])
  }

  /** `n.toString().padStart(2, '0')`: never truncates, only pads. */
  function Pad2(n: nat): string
  {
    if n < 10 then "0" + Decimal(n) else Decimal(n)
  }

  /** `formatTime`: seconds as minutes and seconds, each padded to two digits. */
  function FormatTime(seconds: nat): string
  {
    Pad2(seconds / 60) + ":" + Pad2(seconds % 60)
  }

  /** Minutes after midnight denoted by an `HH:MM` string, or None for any other
      shape. Hours and minutes are not range-checked, as `setHours` rolls over. */
  function ParseClock(s: string): Option<int>
  {
    if |s| == 5 && IsDigit(s[0]) && IsDigit(s[1]) && s[2] == ':' && IsDigit(s[3]) && IsDigit(s[4])
    then Some((DigitValue(s[0]) * 10 + DigitValue(s[1])) * 60 + DigitValue(s[3]) * 10 + DigitValue(s[4]))
    else None
  }

  /** A stored time-of-day: what an `<input type="time">` yields once filled. */
  type ClockString = s: string | ParseClock(s).Some? witness "00:00"

  function MinutesOfDay(s: ClockString): int
  {
    ParseClock(s).value
  }

  /** The instant at which the given time of day falls on the day that starts
      at `dayStart` (local midnight); time-zone shifts are not modelled. */
  function InstantToday(dayStart: int, s: ClockString): int
  {
    dayStart + MinutesOfDay(s) * MsPerMinute
  }

  lemma {:induction false} DecimalDigits(n: nat)
    ensures |Decimal(n)| >= 1
    ensures forall i :: 0 <= i < |Decimal(n)| ==> IsDigit(Decimal(n)[i])
    ensures DecimalValue(Decimal(n)) == n
  {
    if n >= 10 {
      DecimalDigits(n / 10);
      var s := Decimal(n);
      assert s[..|s| - 1] == Decimal(n / 10);
    }
  }

  lemma {:induction false} Pad2Digits(n: nat)
    ensures |Pad2(n)| >= 2
    ensures n < 100 ==> |Pad2(n)| == 2
    ensures forall i :: 0 <= i < |Pad2(n)| ==> IsDigit(Pad2(n)[i])
    ensures DecimalValue(Pad2(n)) == n
  {
    DecimalDigits(n);
    if n < 10 {
      var s := Pad2(n);
      assert s[..1] == "0";
      assert s[..|s| - 1] == "0";
    } else {
      DecimalDigits(n / 10);
    }
  }

  /** Reading the display back: the part before the last colon is the minutes,
      the two digits after it the seconds, and together they give the input. */
  lemma {:induction false} FormatTimeRoundTrip(seconds: nat)
    ensures |FormatTime(seconds)| >= 5
    ensures FormatTime(seconds)[|FormatTime(seconds)| - 3] == ':'
    ensures var r := FormatTime(seconds);
      DecimalValue(r[..|r| - 3]) * 60 + DecimalValue(r[|r| - 2..]) == seconds
    ensures var r := FormatTime(seconds); DecimalValue(r[|r| - 2..]) < 60
  {
    var m, s := Pad2(seconds / 60), Pad2(seconds % 60);
    Pad2Digits(seconds / 60);
    Pad2Digits(seconds % 60);
    var r := FormatTime(seconds);
    assert r == m + ":" + s;
    assert r[..|r| - 3] == m;
    assert r[|r| - 2..] == s;
  }

  /** The string a time input produces for hour `h` and minute `m` parses back
      to the minutes after midnight of that time. */
  lemma {:induction false} ParseClockOfPadded(h: nat, m: nat)
    requires h < 100 && m < 100
    ensures ParseClock(Pad2(h) + ":" + Pad2(m)) == Some(h * 60 + m)
  {
    Pad2Digits(h);
    Pad2Digits(m);
    var a, b := Pad2(h), Pad2(m);
    assert DecimalValue(a) == DigitValue(a[0]) * 10 + DigitValue(a[1]) by {
      assert a[..1][..0] == [];
      assert a[..|a| - 1] == a[..1];
    }
    assert DecimalValue(b) == DigitValue(b[0]) * 10 + DigitValue(b[1]) by {
      assert b[..1][..0] == [];
      assert b[..|b| - 1] == b[..1];
    }
  }
}
