/** The display rules of `src/components/TaskItem.tsx`: `formatTime`, which
    turns a 24-hour "HH:MM" text into "h:MM AM/PM", and `getFrequencyText`. */
module TaskItem {
  import opened Common
  import opened TimeText
  import opened TaskTypes

  /** The three parts `formatTime` puts into its template literal: the
      displayed hour, the minutes field (`undefined` when the text has no
      ':'), and whether the suffix is PM. */
  datatype Clock12 = Clock12(hour: nat, minutes: Option<string>, pm: bool)

  /** `formatTime` up to rendering: `hour % 12 || 12` and `hour >= 12` of
      `parseInt(hours, 10)`, where a `NaN` hour falls back to 12 AM. */
  function FormatParts(time: string): (c: Clock12)
    ensures 1 <= c.hour <= 12
  {
    var fields := Split(time, ':');
    var hour := ParseInt(fields[0]);
    var isPM := hour.Some? && hour.value >= 12;
    var displayHour := if hour.Some? && hour.value % 12 != 0 then hour.value % 12 else 12;
    Clock12(displayHour, if |fields| > 1 then Some(fields[1]) else None, isPM)
  }

  function Render(c: Clock12): string {
    NatToString(c.hour) + ":" + c.minutes.GetOr("undefined") + " " + (if c.pm then "PM" else "AM")
  }

  /** `formatTime` of `TaskItem`. */
  function FormatTime(time: string): string {
    Render(FormatParts(time))
  }

  /** The 24-hour hour a 12-hour display denotes. */
  function Hour24(c: Clock12): nat {
    c.hour % 12 + if c.pm then 12 else 0
  }

  /** Reads a rendered "h:mm AM" text back into its parts. */
  function Unrender(s: string): Option<Clock12> {
    if |s| < 3 || s[|s| - 3] != ' ' || (s[|s| - 2..] != "AM" && s[|s| - 2..] != "PM") then None
    else
      var body := s[..|s| - 3];
      var colon := IndexOf(body, ':');
      if colon.None? || !AllDigits(body[..colon.value]) then None
      else Some(Clock12(DigitsValue(body[..colon.value]), Some(body[colon.value + 1..]), s[|s| - 2..] == "PM"))
  }

  /** What `formatTime` shows for a well-formed "HH:MM": an hour in 1..12,
      12 AM for midnight and 12 PM for noon, PM exactly from 12:00 on, the
      minutes text copied verbatim, and nothing lost: the 24-hour hour is
      recovered from the display. */
  lemma FormatPartsOfClockTime(time: string)
    requires IsClockTime(time)
    ensures var c := FormatParts(time);
      && 1 <= c.hour <= 12
      && c.minutes == Some(time[3..])
      && (c.pm <==> HourOf(time) >= 12)
      && (HourOf(time) == 0 ==> c.hour == 12 && !c.pm)
      && (HourOf(time) == 12 ==> c.hour == 12 && c.pm)
      && Hour24(c) == HourOf(time)
  {
    ClockTimeFields(time);
    var h := time[..2];
    assert TrimStart(h) == h by {
      assert !IsSpace(h[0]);
    }
    LeadingDigitsOfDigits(h);
  }

  /** Rendering loses nothing: the parts can be read back. */
  lemma UnrenderRender(c: Clock12)
    requires c.minutes.Some?
    ensures Unrender(Render(c)) == Some(c)
  {
    var hs := NatToString(c.hour);
    var m := c.minutes.value;
    var suffix := if c.pm then "PM" else "AM";
    var s := Render(c);
    assert s == hs + [':'] + m + [' '] + suffix;
    var body := s[..|s| - 3];
    assert body == hs + [':'] + m;
    assert s[|s| - 3] == ' ' && s[|s| - 2..] == suffix;
    assert ':' !in hs by {
      assert forall i :: 0 <= i < |hs| ==> IsDigit(hs[i]);
    }
    IndexOfAfter(hs, ':', m);
    assert body[..|hs|] == hs && body[|hs| + 1..] == m;
    NatToStringRoundTrip(c.hour);
  }

  /** On well-formed input `formatTime` is injective: two different times
      never display alike. */
  lemma FormatTimeInjective(a: string, b: string)
    requires IsClockTime(a) && IsClockTime(b)
    requires FormatTime(a) == FormatTime(b)
    ensures a == b
  {
    FormatPartsOfClockTime(a);
    FormatPartsOfClockTime(b);
    UnrenderRender(FormatParts(a));
    UnrenderRender(FormatParts(b));
    ClockTimeDetermined(a, b);
  }

  /** `getFrequencyText`. */
  function FrequencyText(frequency: Option<Frequency>): (r: string)
    ensures r == "" <==> frequency.None?
  {
    match frequency
    case Some(Daily) => "Repeats daily"
    case Some(Weekly) => "Repeats weekly"
    case Some(Monthly) => "Repeats monthly"
    case None => ""
  }

  /** Each frequency has its own phrase. */
  lemma FrequencyTextInjective(f: Option<Frequency>, g: Option<Frequency>)
    requires FrequencyText(f) == FrequencyText(g)
    ensures f == g
  {
  }
}
