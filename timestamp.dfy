/** SRT timestamps: `VideoProcessor._format_timestamp` and the rule by which
    `verify_srt` reads a timestamp back as whole seconds.
    Times are non-negative integer milliseconds, so the decomposition is exact. */
module Timestamp {
  import opened Text
  import opened Optional

  /** One hour, one minute, one second, in milliseconds. */
  const HourMs: nat := 3_600_000
  const MinuteMs: nat := 60_000
  const SecondMs: nat := 1_000

  /** Times below this bound render with two-digit hours: 100 hours. */
  const TwoDigitHoursLimit: nat := 100 * HourMs

  datatype Clock = Clock(hours: nat, minutes: nat, seconds: nat, millis: nat)

  /** The hours/minutes/seconds/milliseconds split of `_format_timestamp`. */
  function Decompose(ms: nat): (c: Clock)
    ensures c.minutes < 60 && c.seconds < 60 && c.millis < 1000
    ensures c.hours * 3600 + c.minutes * 60 + c.seconds == ms / SecondMs
    ensures c.hours * HourMs + c.minutes * MinuteMs + c.seconds * SecondMs + c.millis == ms
  {
    var total := ms / 1000;
    Clock(total / 3600, (total % 3600) / 60, total % 60, ms % 1000)
  }

  /** `HH:MM:SS,mmm`, each field zero-padded to its width (hours may grow past two digits). */
  function Format(ms: nat): string
  {
    Render(Decompose(ms))
  }

  function Render(c: Clock): string
  {
    ZeroPad(NatToString(c.hours), 2) + ":" + ZeroPad(NatToString(c.minutes), 2) + ":"
      + ZeroPad(NatToString(c.seconds), 2) + "," + ZeroPad(NatToString(c.millis), 3)
  }

  /** The 12-character shape `\d{2}:\d{2}:\d{2},\d{3}`. */
  predicate IsTimestamp(t: string)
  {
    && |t| == 12
    && IsDigit(t[0]) && IsDigit(t[1]) && t[2] == ':'
    && IsDigit(t[3]) && IsDigit(t[4]) && t[5] == ':'
    && IsDigit(t[6]) && IsDigit(t[7]) && t[8] == ','
    && IsDigit(t[9]) && IsDigit(t[10]) && IsDigit(t[11])
  }

  function TwoDigits(a: char, b: char): nat
  {
    DigitValue(a) * 10 + DigitValue(b)
  }

  /** `re.match(r'(\d{2}):(\d{2}):(\d{2})', ts)` and `h*3600 + m*60 + s`;
      None when the match fails. Milliseconds are ignored. */
  function ParseSeconds(ts: string): (r: Option<nat>)
    ensures r.Some? <==> |ts| >= 8 && IsDigit(ts[0]) && IsDigit(ts[1]) && ts[2] == ':'
                         && IsDigit(ts[3]) && IsDigit(ts[4]) && ts[5] == ':'
                         && IsDigit(ts[6]) && IsDigit(ts[7])
  {
    if |ts| >= 8 && IsDigit(ts[0]) && IsDigit(ts[1]) && ts[2] == ':'
       && IsDigit(ts[3]) && IsDigit(ts[4]) && ts[5] == ':' && IsDigit(ts[6]) && IsDigit(ts[7])
    then Some(TwoDigits(ts[0], ts[1]) * 3600 + TwoDigits(ts[3], ts[4]) * 60 + TwoDigits(ts[6], ts[7]))
    else None
  }

  lemma PadTwo(n: nat)
    requires n < 100
    ensures ZeroPad(NatToString(n), 2) == [DigitChar(n / 10), DigitChar(n % 10)]
  {
    if n < 10 {
      PadSingle(n);
    } else {
      PadDouble(n);
    }
  }

  lemma PadSingle(d: nat)
    requires d < 10
    ensures ZeroPad(NatToString(d), 2) == [DigitChar(0), DigitChar(d)]
  {
    var z := ZeroPad([DigitChar(d)], 2);
    assert z[1..] == [DigitChar(d)];
    assert z == [z[0]] + z[1..];
  }

  lemma PadDouble(n: nat)
    requires 10 <= n < 100
    ensures ZeroPad(NatToString(n), 2) == [DigitChar(n / 10), DigitChar(n % 10)]
  {
    assert NatToString(n / 10) == [DigitChar(n / 10)];
  }

  lemma PadThree(n: nat)
    requires n < 1000
    ensures |ZeroPad(NatToString(n), 3)| == 3
    ensures forall k :: 0 <= k < 3 ==> IsDigit(ZeroPad(NatToString(n), 3)[k])
  {
    if n >= 10 {
      assert |NatToString(n / 10)| <= 2 by {
        if n / 10 >= 10 { assert NatToString(n / 10 / 10) == [DigitChar(n / 10 / 10)]; }
      }
    }
  }

  /** The rendering of a clock whose fields have two digits, character by character. */
  predicate RendersAs(f: string, c: Clock)
    requires c.hours < 100 && c.minutes < 100 && c.seconds < 100
  {
    && |f| == 9 + |ZeroPad(NatToString(c.millis), 3)|
    && f[0] == DigitChar(c.hours / 10) && f[1] == DigitChar(c.hours % 10) && f[2] == ':'
    && f[3] == DigitChar(c.minutes / 10) && f[4] == DigitChar(c.minutes % 10) && f[5] == ':'
    && f[6] == DigitChar(c.seconds / 10) && f[7] == DigitChar(c.seconds % 10) && f[8] == ','
    && f[9..] == ZeroPad(NatToString(c.millis), 3)
  }

  lemma RenderChars(c: Clock)
    requires c.hours < 100 && c.minutes < 100 && c.seconds < 100
    ensures RendersAs(Render(c), c)
  {
    var h, m, sec := ZeroPad(NatToString(c.hours), 2), ZeroPad(NatToString(c.minutes), 2), ZeroPad(NatToString(c.seconds), 2);
    var milli := ZeroPad(NatToString(c.millis), 3);
    PadTwo(c.hours);
    PadTwo(c.minutes);
    PadTwo(c.seconds);
    FieldLayout(h, m, sec, milli);
  }

  lemma FieldLayout(h: string, m: string, sec: string, milli: string)
    requires |h| == 2 && |m| == 2 && |sec| == 2
    ensures var f := h + ":" + m + ":" + sec + "," + milli;
      && |f| == 9 + |milli|
      && f[0] == h[0] && f[1] == h[1] && f[2] == ':'
      && f[3] == m[0] && f[4] == m[1] && f[5] == ':'
      && f[6] == sec[0] && f[7] == sec[1] && f[8] == ','
      && f[9..] == milli
  {
    var f := h + ":" + m + ":" + sec + "," + milli;
    assert f[9..] == milli;
  }

  lemma RenderShape(c: Clock)
    requires c.hours < 100 && c.minutes < 60 && c.seconds < 60 && c.millis < 1000
    ensures IsTimestamp(Render(c))
  {
    RenderChars(c);
    PadThree(c.millis);
    var f, milli := Render(c), ZeroPad(NatToString(c.millis), 3);
    assert f[9] == milli[0] && f[10] == milli[1] && f[11] == milli[2] by {
      assert f[9..] == milli;
    }
  }

  lemma RenderParse(c: Clock)
    requires c.hours < 100 && c.minutes < 60 && c.seconds < 60 && c.millis < 1000
    ensures ParseSeconds(Render(c)) == Some(c.hours * 3600 + c.minutes * 60 + c.seconds)
  {
    RenderChars(c);
    ParseRendered(Render(c), c);
  }

  lemma ParseRendered(f: string, c: Clock)
    requires c.hours < 100 && c.minutes < 100 && c.seconds < 100
    requires RendersAs(f, c)
    ensures ParseSeconds(f) == Some(c.hours * 3600 + c.minutes * 60 + c.seconds)
  {
    assert TwoDigits(f[0], f[1]) == c.hours;
    assert TwoDigits(f[3], f[4]) == c.minutes;
    assert TwoDigits(f[6], f[7]) == c.seconds;
  }

  lemma HoursBelowHundred(ms: nat)
    requires ms < TwoDigitHoursLimit
    ensures Decompose(ms).hours < 100
  {
    assert ms / SecondMs < 360_000;
  }

  /** For times under 100 hours the rendering is exactly 12 characters of the
      shape `verify_srt` searches for, whatever the time. */
  lemma FormatShape(ms: nat)
    requires ms < TwoDigitHoursLimit
    ensures IsTimestamp(Format(ms))
  {
    HoursBelowHundred(ms);
    RenderShape(Decompose(ms));
  }

  /** Formatting a time and reading it back with `verify_srt`'s rule gives
      the whole seconds of the time: the round trip drops only milliseconds. */
  lemma FormatParseRoundTrip(ms: nat)
    requires ms < TwoDigitHoursLimit
    ensures ParseSeconds(Format(ms)) == Some(ms / SecondMs)
  {
    HoursBelowHundred(ms);
    RenderParse(Decompose(ms));
  }

  /** 3725.25 s renders as `01:02:05,250`. */
  lemma FormatExample()
    ensures Format(3_725_250) == "01:02:05,250"
  {
    var c := Clock(1, 2, 5, 250);
    assert Decompose(3_725_250) == c;
    RenderChars(c);
    assert ZeroPad(NatToString(250), 3) == "250" by {
      assert NatToString(250) == NatToString(25) + ['0'];
      assert NatToString(25) == NatToString(2) + ['5'];
    }
    var f := Render(c);
    assert f == f[..9] + f[9..];
    assert f[..9] == "01:02:05,";
  }
}
