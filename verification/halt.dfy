/** The halt conditions panel: the humanised halt time and when the panel is shown. */
module Halt {
  import opened Strings
  import opened Blender
  import opened Maybe

  /**
   * Splits a halt time in seconds into hours, minutes and seconds by two
   * floored divisions by 60. Floored division by a positive divisor is what
   * Dafny's `/` and `%` compute, negative times included.
   */
  function Humanize(time: int): (r: (int, int, int))
    ensures r.0 * 3600 + r.1 * 60 + r.2 == time
    ensures 0 <= r.1 < 60 && 0 <= r.2 < 60
    ensures r.0 == time / 3600
    ensures time >= 0 ==> r.0 >= 0
  {
    var m := time / 60;
    var s := time % 60;
    var h := m / 60;
    var m' := m % 60;
    HumanizeHours(time, h, m', s);
    (h, m', s)
  }

  lemma HumanizeHours(time: int, h: int, m: int, s: int)
    requires h == (time / 60) / 60 && m == (time / 60) % 60 && s == time % 60
    ensures h * 3600 + m * 60 + s == time
    ensures h == time / 3600
  {
    var q := time / 60;
    assert time == q * 60 + s;
    assert q == h * 60 + m;
    assert time == h * 3600 + (m * 60 + s);
    assert 0 <= m * 60 + s < 3600;
    DivUnique(time, h, m * 60 + s);
  }

  lemma DivUnique(time: int, h: int, rest: int)
    requires time == h * 3600 + rest && 0 <= rest < 3600
    ensures time / 3600 == h
  {
    var q := time / 3600;
    var r := time % 3600;
    assert time == q * 3600 + r;
    assert (q - h) * 3600 == rest - r;
  }

  const HoursUnit := " hours, "
  const MinutesUnit := " minutes, "
  const SecondsUnit := " seconds"

  /** The label the panel shows: hours, minutes and seconds, each with its unit. */
  function HumanizedText(time: int): (r: string)
    ensures time >= 0 ==> r == NatToString(time / 3600) + HoursUnit + NatToString(time / 60 % 60) + MinutesUnit
                               + NatToString(time % 60) + SecondsUnit
  {
    var (h, m, s) := Humanize(time);
    IntToString(h) + HoursUnit + IntToString(m) + MinutesUnit + IntToString(s) + SecondsUnit
  }

  /** Length of the run of decimal digits at the start of `s`. */
  function DigitRun(s: string): (n: nat)
    ensures n <= |s|
    decreases |s|
  {
    if |s| == 0 || !IsDigit(s[0]) then 0 else 1 + DigitRun(s[1..])
  }

  /** The run is all digits and stops at the first character that is not one. */
  lemma {:induction false} DigitRunDigits(s: string)
    ensures AllDigits(s[..DigitRun(s)])
    ensures DigitRun(s) < |s| ==> !IsDigit(s[DigitRun(s)])
    decreases |s|
  {
    if |s| > 0 && IsDigit(s[0]) {
      DigitRunDigits(s[1..]);
      assert s[..DigitRun(s)] == [s[0]] + s[1..][..DigitRun(s[1..])];
    }
  }

  /** Reads a count followed by `unit`, giving the count and the text after the unit. */
  function ReadCount(s: string, unit: string): Option<(nat, string)> {
    var n := DigitRun(s);
    DigitRunDigits(s);
    if 0 < n && StartsWith(s[n..], unit) then Some((ParseDigits(s[..n]), s[n + |unit|..])) else None
  }

  /** Reads a label of the panel's form back to the number of seconds it shows. */
  function ReadHumanizedText(text: string): Option<int> {
    var hours := ReadCount(text, HoursUnit);
    if hours.None? then None else
    var minutes := ReadCount(hours.value.1, MinutesUnit);
    if minutes.None? then None else
    var seconds := ReadCount(minutes.value.1, SecondsUnit);
    if seconds.None? || seconds.value.1 != "" then None
    else Some(hours.value.0 * 3600 + minutes.value.0 * 60 + seconds.value.0)
  }

  lemma {:induction false} DigitRunOf(digits: string, rest: string)
    requires AllDigits(digits) && (|rest| == 0 || !IsDigit(rest[0]))
    ensures DigitRun(digits + rest) == |digits|
    decreases |digits|
  {
    if |digits| == 0 {
      assert digits + rest == rest;
    } else {
      assert (digits + rest)[1..] == digits[1..] + rest;
      DigitRunOf(digits[1..], rest);
    }
  }

  lemma ReadCountOf(d: nat, unit: string, rest: string)
    requires |unit| > 0 && !IsDigit(unit[0])
    ensures ReadCount(NatToString(d) + (unit + rest), unit) == Some((d, rest))
  {
    var digits := NatToString(d);
    var s := digits + (unit + rest);
    DigitRunOf(digits, unit + rest);
    assert s[..|digits|] == digits;
    assert s[|digits|..] == unit + rest;
    assert (unit + rest)[..|unit|] == unit;
    assert s[|digits| + |unit|..] == rest;
    ParseNatToString(d);
  }

  /** A label whose three counts read one after the other reads as the seconds they make up. */
  lemma ReadThree(text: string, h: nat, afterHours: string, m: nat, afterMinutes: string, s: nat)
    requires ReadCount(text, HoursUnit) == Some((h, afterHours))
    requires ReadCount(afterHours, MinutesUnit) == Some((m, afterMinutes))
    requires ReadCount(afterMinutes, SecondsUnit) == Some((s, ""))
    ensures ReadHumanizedText(text) == Some(h * 3600 + m * 60 + s)
  {
  }

  /** A label built from three counts reads back as the seconds they make up. */
  lemma ReadCounts(h: nat, m: nat, s: nat)
    ensures ReadHumanizedText(NatToString(h) + (HoursUnit + (NatToString(m) + (MinutesUnit + (NatToString(s) + (SecondsUnit + ""))))))
      == Some(h * 3600 + m * 60 + s)
  {
    var afterMinutes := NatToString(s) + (SecondsUnit + "");
    var afterHours := NatToString(m) + (MinutesUnit + afterMinutes);
    ReadCountOf(h, HoursUnit, afterHours);
    ReadCountOf(m, MinutesUnit, afterMinutes);
    ReadCountOf(s, SecondsUnit, "");
    ReadThree(NatToString(h) + (HoursUnit + afterHours), h, afterHours, m, afterMinutes, s);
  }

  lemma Regroup(a: string, b: string, c: string, d: string, e: string, f: string)
    ensures a + b + c + d + e + f == a + (b + (c + (d + (e + (f + "")))))
  {
  }

  /** The label of a non-negative time, grouped the way the reader consumes it. */
  lemma LabelOfTime(time: int, h: nat, m: nat, s: nat)
    requires time >= 0 && h == time / 3600 && m == time / 60 % 60 && s == time % 60
    ensures HumanizedText(time) == NatToString(h) + (HoursUnit + (NatToString(m) + (MinutesUnit + (NatToString(s) + (SecondsUnit + "")))))
  {
    Regroup(NatToString(h), HoursUnit, NatToString(m), MinutesUnit, NatToString(s), SecondsUnit);
  }

  /** The label of a non-negative time reads back as the seconds its counts make up. */
  lemma LabelReads(time: int, h: nat, m: nat, s: nat)
    requires time >= 0 && h == time / 3600 && m == time / 60 % 60 && s == time % 60
    ensures ReadHumanizedText(HumanizedText(time)) == Some(h * 3600 + m * 60 + s)
  {
    LabelOfTime(time, h, m, s);
    ReadCounts(h, m, s);
  }

  /**
   * For a non-negative halt time the label reads back as that time: the
   * three counts it shows recompose the number of seconds.
   */
  lemma HumanizedTextRoundTrip(time: int)
    requires time >= 0
    ensures ReadHumanizedText(HumanizedText(time)) == Some(time)
  {
    var h, m, s := time / 60 / 60, time / 60 % 60, time % 60;
    HumanizeHours(time, h, m, s);
    LabelReads(time, h, m, s);
  }

  /** `poll`: the panel is shown only while LuxCore is the render engine. */
  function Poll(scene: Scene): (r: bool)
    ensures r <==> scene.engine == "LUXCORE"
  {
    scene.engine == "LUXCORE"
  }
}
