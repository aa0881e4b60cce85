/** The `m:ss` clock text that both the player and the chord timeline show,
    and the parser that reads it back. */
module ClockText {
  import opened Wrappers
  import opened Text

  /** The `m:ss` text of a whole number of seconds. */
  function Clock(n: nat): string {
    NatToString(n / 60) + ":" + PadStart(NatToString(n % 60), 2, '0')
  }

  /** Under a minute, from 10 s on, the text is `0:` and the two digits. */
  lemma ClockUnderAMinute(n: nat)
    requires 10 <= n < 60
    ensures Clock(n) == ['0', ':', DigitChar(n / 10), DigitChar(n % 10)]
  {
    assert n / 60 == 0 && n % 60 == n;
    assert NatToString(0) == ['0'];
    TwoDigitText(n);
  }

  datatype ClockReading = ClockReading(minutes: nat, seconds: nat)

  /** Reads an `m:ss` text back: digits, a colon, exactly two digits. */
  function ParseClock(s: string): Option<ClockReading> {
    if |s| >= 4 && s[|s| - 3] == ':' && AllDigits(s[..|s| - 3]) && AllDigits(s[|s| - 2..])
    then Some(ClockReading(ParseNat(s[..|s| - 3]), ParseNat(s[|s| - 2..])))
    else None
  }

  lemma ParseClockOf(m: string, p: string)
    requires 1 <= |m| && AllDigits(m) && |p| == 2 && AllDigits(p)
    ensures ParseClock(m + ":" + p) == Some(ClockReading(ParseNat(m), ParseNat(p)))
  {
    var s := m + ":" + p;
    assert s[..|s| - 3] == m;
    assert s[|s| - 2..] == p;
  }

  /** `m:ss` round trip: the text of `n` whole seconds reads back as `n / 60`
      minutes and `n % 60` seconds, the seconds always two digits in 0..59. */
  lemma ParseClockRoundTrip(n: nat)
    ensures ParseClock(Clock(n)) == Some(ClockReading(n / 60, n % 60))
  {
    PadTwoDigits(n % 60);
    ParseNatToString(n / 60);
    ParseClockOf(NatToString(n / 60), PadStart(NatToString(n % 60), 2, '0'));
  }
}
