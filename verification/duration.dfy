/**
 * `calculateDuration`, shared verbatim by the checkout page and the
 * booking-confirmation page: the difference between two instants, in
 * milliseconds, shown as "<hours>h <minutes>m". The hours are the floor of
 * the difference in hours; the minutes are taken from JavaScript's
 * truncated `%` of the difference by one hour, floored to whole minutes.
 * Instants are epoch milliseconds (the result of `new Date(s).getTime()`).
 */
module Duration {
  import opened Common
  import opened JsNumber
  import opened Decimal
  import opened Text

  const MsPerMinute: int := 1000 * 60
  const MsPerHour: int := 1000 * 60 * 60

  /** The two numbers the duration string shows. */
  datatype HoursMinutes = HoursMinutes(hours: int, minutes: int)

  /**
   * Splits a millisecond difference into hours and minutes. The hours are
   * always the floor of the difference in hours. For a non-negative
   * difference the minutes are the minutes past the last full hour and
   * the pair is exact to the minute; for a negative one the remainder
   * keeps the sign of the difference and the minutes fall in [-60, 0].
   */
  function Split(durationMs: int): (d: HoursMinutes)
    ensures d.hours * MsPerHour <= durationMs < d.hours * MsPerHour + MsPerHour
    ensures durationMs >= 0 ==> 0 <= d.minutes < 60
    ensures durationMs >= 0 ==> d.hours * 60 + d.minutes == durationMs / MsPerMinute
    ensures durationMs < 0 ==> -60 <= d.minutes <= 0
  {
    HoursMinutes(FloorDiv(durationMs, MsPerHour), FloorDiv(Rem(durationMs, MsPerHour), MsPerMinute))
  }

  /** The template literal `${hours}h ${minutes}m`. */
  function Format(d: HoursMinutes): string {
    IntToString(d.hours) + "h " + IntToString(d.minutes) + "m"
  }

  /**
   * `calculateDuration(departure, arrival)` on epoch milliseconds. The
   * string reads back as the hours and minutes of the difference, and it is
   * the only string that does, so no other spelling (a zero-padded minute,
   * say) could be shown; for an arrival no earlier than the departure the
   * two numbers are the whole hours and the minutes past them.
   */
  function Calculate(departureMs: int, arrivalMs: int): (s: string)
    ensures ParseFormatted(s) == Some(Split(arrivalMs - departureMs))
    ensures forall t :: ParseFormatted(t) == Some(Split(arrivalMs - departureMs)) <==> t == s
    ensures arrivalMs >= departureMs ==>
      && ParseFormatted(s).value.hours == (arrivalMs - departureMs) / MsPerHour
      && ParseFormatted(s).value.minutes == (arrivalMs - departureMs) % MsPerHour / MsPerMinute
  {
    ParseFormatUnique(Split(arrivalMs - departureMs));
    Format(Split(arrivalMs - departureMs))
  }

  /** Reads a string of the form "<int>h <int>m" back into its two numbers. */
  function ParseFormatted(s: string): Option<HoursMinutes> {
    var k := IndexOf(s, 'h');
    if k + 2 <= |s| - 1 && s[k + 1] == ' ' && s[|s| - 1] == 'm' then
      match (ParseInt(s[..k]), ParseInt(s[k + 2..|s| - 1]))
      case (Some(h), Some(m)) => Some(HoursMinutes(h, m))
      case _ => None
    else
      None
  }

  /** No rendered integer contains the letter 'h'. */
  lemma NoHourMark(x: int)
    ensures forall i :: 0 <= i < |IntToString(x)| ==> IntToString(x)[i] != 'h'
  {
  }

  /** The duration string determines both numbers it was made from. */
  lemma ParseFormat(d: HoursMinutes)
    ensures ParseFormatted(Format(d)) == Some(d)
  {
    var hs := IntToString(d.hours);
    var ms := IntToString(d.minutes);
    var s := Format(d);
    NoHourMark(d.hours);
    assert s == hs + ['h'] + (" " + ms + "m");
    IndexOfAfterPrefix(hs, 'h', " " + ms + "m");
    assert s[..|hs|] == hs;
    assert s[|hs| + 2..|s| - 1] == ms;
    ParseIntToString(d.hours);
    ParseIntToString(d.minutes);
  }

  /** A string that reads back as a pair is that pair's rendering: nothing but `Format` output parses. */
  lemma FormatOfParse(s: string)
    requires ParseFormatted(s).Some?
    ensures s == Format(ParseFormatted(s).value)
  {
    var k := IndexOf(s, 'h');
    assert k + 2 <= |s| - 1 && s[k] == 'h' && s[k + 1] == ' ' && s[|s| - 1] == 'm';
    var hs := s[..k];
    var ms := s[k + 2..|s| - 1];
    var h := ParseInt(hs).value;
    var m := ParseInt(ms).value;
    assert ParseFormatted(s).value == HoursMinutes(h, m);
    IntToStringOfParse(hs);
    IntToStringOfParse(ms);
    assert s == hs + [s[k], s[k + 1]] + ms + [s[|s| - 1]];
  }

  /** The rendering of a pair is the one string that parses back to it. */
  lemma ParseFormatUnique(d: HoursMinutes)
    ensures forall t :: ParseFormatted(t) == Some(d) <==> t == Format(d)
  {
    ParseFormat(d);
    forall t | ParseFormatted(t) == Some(d)
      ensures t == Format(d)
    {
      FormatOfParse(t);
    }
  }

  /** Two hours and five minutes show as "2h 5m"; the zero-padded "2h 05m" is no rendering and does not parse. */
  lemma UnpaddedMinutes()
    ensures Split(7500000) == HoursMinutes(2, 5)
    ensures Calculate(0, 7500000) == "2h 5m"
    ensures ParseFormatted("2h 05m").None?
  {
    assert IntToString(2) == [DigitChar(2)] == "2";
    assert IntToString(5) == [DigitChar(5)] == "5";
    assert Format(HoursMinutes(2, 5)) == "2" + "h " + "5" + "m";
    IndexOfAfterPrefix("2", 'h', " 05m");
    assert "2h 05m" == "2" + ['h'] + " 05m";
    assert "2h 05m"[3..5] == "05";
  }

  /**
   * For an arrival no earlier than the departure, the shown string is
   * exact to the minute: reading it back gives minutes below 60 whose
   * total is the whole number of minutes between the two instants.
   */
  lemma CalculateExactToMinute(departureMs: int, arrivalMs: int)
    requires departureMs <= arrivalMs
    ensures ParseFormatted(Calculate(departureMs, arrivalMs)).Some?
    ensures var d := ParseFormatted(Calculate(departureMs, arrivalMs)).value;
      && 0 <= d.minutes < 60
      && d.hours * 60 + d.minutes == (arrivalMs - departureMs) / MsPerMinute
  {
    ParseFormat(Split(arrivalMs - departureMs));
  }

  /**
   * An arrival before the departure shows the hours rounded down, and the
   * minutes as the floor of the hour remainder, which keeps the sign of the
   * difference; so the two do not add up: 90 minutes early reads
   * "-2h -30m", one millisecond short of an hour early reads "-1h -60m",
   * and one millisecond early reads "-1h -1m".
   */
  lemma NegativeDurations()
    ensures Split(-90 * MsPerMinute) == HoursMinutes(-2, -30)
    ensures Split(1 - MsPerHour) == HoursMinutes(-1, -60)
    ensures Split(-1) == HoursMinutes(-1, -1)
  {
  }
}
