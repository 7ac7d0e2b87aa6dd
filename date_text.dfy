/**
 * The client's date formatters applied to strings, as `formatDate`, `formatTime` and
 * `formatWeekday` in client/Details.js and server/tables.js do: `new Date(dateString)` first, then
 * the fields of the date. The strings these formatters meet are the bucket keys of the
 * re-aggregation and the timestamps of the history API; anything else reads as an invalid date,
 * whose fields are `NaN`.
 */
module DateText {
  import opened Wrappers
  import opened Text
  import opened Calendar

  /** `new Date(s)` for an hour key `YYYY-MM-DD HH:00:00`. */
  function ParseHourKey(s: string): (r: Option<DateTime>)
    ensures r.Some? ==> Valid(r.value) && FourDigitYear(r.value) && r.value.minute == 0 && r.value.second == 0
  {
    if |s| == 19 && s[10] == ' ' && AllDigits(s[11..13]) && s[13..] == ":00:00"
    then
      match ParseDayKey(s[..10])
      case None => None
      case Some(d) =>
        var t := d.(hour := DigitsValue(s[11..13]));
        if Valid(t) then Some(t) else None
    else None
  }

  /** The hour key of a date with a four-digit year reads back as the start of that hour. */
  lemma HourKeyRoundTrip(t: DateTime)
    requires Valid(t) && FourDigitYear(t)
    ensures ParseHourKey(HourKey(t)) == Some(t.(minute := 0, second := 0))
  {
    ParseDayKeyRoundTrip(t);
    FourDigits(t.year);
    Pad2Digits(t.month);
    Pad2Digits(t.day);
    Pad2Digits(t.hour);
    var s := HourKey(t);
    assert s[..10] == DayKey(t);
    assert s[11..13] == Pad2(t.hour);
    assert s[13..] == ":00:00";
  }

  /** `new Date(s)` for the three shapes of string the client formats: a day key, an hour key or a
      history timestamp; `None` is an invalid date. */
  function ParseDate(s: string): (r: Option<DateTime>)
    ensures r.Some? ==> Valid(r.value) && FourDigitYear(r.value)
  {
    if |s| == 10 then ParseDayKey(s)
    else if |s| == 19 then ParseHourKey(s)
    else ParseDisplayMinute(s)
  }

  /** `formatDate(dateString)`: `DD.MM.YY`, or `NaN.NaN.aN` for an invalid date. */
  function FormatDateText(s: string): string
  {
    match ParseDate(s)
    case Some(t) => FormatDate(t)
    case None => "NaN.NaN.aN"
  }

  /** `formatTime(dateString)`: `HH:MM`, or `NaN:NaN` for an invalid date. */
  function FormatTimeText(s: string): string
  {
    match ParseDate(s)
    case Some(t) => FormatTime(t)
    case None => "NaN:NaN"
  }

  /** `formatWeekday(dateString)`: the weekday name, or `undefined` for an invalid date. */
  function FormatWeekdayText(s: string): Option<string>
  {
    match ParseDate(s)
    case Some(t) => Some(FormatWeekday(t))
    case None => None
  }

  lemma DayKeyLength(t: DateTime)
    requires Valid(t) && FourDigitYear(t)
    ensures |DayKey(t)| == 10 && |HourKey(t)| == 19
  {
    FourDigits(t.year);
    Pad2Digits(t.month);
    Pad2Digits(t.day);
    Pad2Digits(t.hour);
  }

  /** A day bucket's key formats as the date and weekday of the day it was built from, and as the
      time `00:00`. */
  lemma FormatDayKey(t: DateTime)
    requires Valid(t) && FourDigitYear(t)
    ensures FormatDateText(DayKey(t)) == FormatDate(t)
    ensures FormatWeekdayText(DayKey(t)) == Some(FormatWeekday(t))
    ensures FormatTimeText(DayKey(t)) == "00:00"
  {
    DayKeyLength(t);
    ParseDayKeyRoundTrip(t);
  }

  /** An hour bucket's key formats as the date and weekday it was built from, and as the time
      `HH:00` of its hour. */
  lemma FormatHourKey(t: DateTime)
    requires Valid(t) && FourDigitYear(t)
    ensures FormatDateText(HourKey(t)) == FormatDate(t)
    ensures FormatWeekdayText(HourKey(t)) == Some(FormatWeekday(t))
    ensures FormatTimeText(HourKey(t)) == Pad2(t.hour) + ":00"
  {
    DayKeyLength(t);
    HourKeyRoundTrip(t);
  }

  /** A history timestamp formats as the minute it names. */
  lemma FormatDisplayMinute(t: DateTime)
    requires Valid(t) && FourDigitYear(t)
    ensures FormatDateText(DisplayMinute(MinuteKey(t))) == FormatDate(t)
    ensures FormatTimeText(DisplayMinute(MinuteKey(t))) == FormatTime(t)
  {
    MinuteKeyShape(t);
    ParseDisplayMinuteRoundTrip(t);
    DayKeyLength(t);
    Pad2Digits(t.hour);
    Pad2Digits(t.minute);
  }
}
