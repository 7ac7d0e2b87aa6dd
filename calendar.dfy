/**
 * Dates and times as the dashboard's JavaScript `Date` values see them, in one fixed time zone:
 * calendar fields, calendar-day arithmetic (`setDate(getDate() + n)`), chronological comparison,
 * the day of the week, and the string formats that the server and the client build from dates.
 */
module Calendar {
  import opened Wrappers
  import opened Text

  /** A local date and time of day, to the second. */
  datatype DateTime = DateTime(year: int, month: int, day: int, hour: int, minute: int, second: int)

  predicate IsLeapYear(y: int)
  {
    y % 4 == 0 && (y % 100 != 0 || y % 400 == 0)
  }

  function DaysInMonth(y: int, m: int): (n: int)
    requires 1 <= m <= 12
    ensures 28 <= n <= 31
  {
    if m == 2 then (if IsLeapYear(y) then 29 else 28)
    else if m == 4 || m == 6 || m == 9 || m == 11 then 30
    else 31
  }

  /** The fields of a JavaScript `Date`: a real calendar day and a time of day (any year). */
  predicate Valid(t: DateTime)
  {
    1 <= t.month <= 12 && 1 <= t.day <= DaysInMonth(t.year, t.month) &&
    0 <= t.hour < 24 && 0 <= t.minute < 60 && 0 <= t.second < 60
  }

  /** Years written with exactly four digits, where the ISO, key and display formats agree. */
  predicate FourDigitYear(t: DateTime)
  {
    1000 <= t.year <= 9999
  }

  // ---------------------------------------------------------------- chronological order

  /** `a < b` on `Date` values: lexicographic on the fields, which is time order for valid dates. */
  predicate Before(a: DateTime, b: DateTime)
  {
    a.year < b.year || (a.year == b.year &&
    (a.month < b.month || (a.month == b.month &&
    (a.day < b.day || (a.day == b.day &&
    (a.hour < b.hour || (a.hour == b.hour &&
    (a.minute < b.minute || (a.minute == b.minute && a.second < b.second)))))))))
  }

  /** `a >= b` on `Date` values. */
  predicate AtOrAfter(a: DateTime, b: DateTime)
  {
    !Before(a, b)
  }

  lemma BeforeTransitive(a: DateTime, b: DateTime, c: DateTime)
    requires Before(a, b) && Before(b, c)
    ensures Before(a, c)
  {
  }

  // ---------------------------------------------------------------- calendar-day arithmetic

  /** The same time of day on the next calendar day. */
  function NextDay(t: DateTime): (r: DateTime)
    requires Valid(t)
    ensures Valid(r) && Before(t, r)
    ensures r.hour == t.hour && r.minute == t.minute && r.second == t.second
  {
    if t.day < DaysInMonth(t.year, t.month) then t.(day := t.day + 1)
    else if t.month < 12 then t.(month := t.month + 1, day := 1)
    else t.(year := t.year + 1, month := 1, day := 1)
  }

  /** The same time of day on the previous calendar day. */
  function PrevDay(t: DateTime): (r: DateTime)
    requires Valid(t)
    ensures Valid(r) && Before(r, t)
    ensures r.hour == t.hour && r.minute == t.minute && r.second == t.second
  {
    if t.day > 1 then t.(day := t.day - 1)
    else if t.month > 1 then t.(month := t.month - 1, day := DaysInMonth(t.year, t.month - 1))
    else t.(year := t.year - 1, month := 12, day := 31)
  }

  lemma PrevNextDay(t: DateTime)
    requires Valid(t)
    ensures PrevDay(NextDay(t)) == t && NextDay(PrevDay(t)) == t
  {
  }

  /** `d.setDate(d.getDate() + n)`: `n` calendar days later (earlier when `n` is negative). */
  function AddDays(t: DateTime, n: int): (r: DateTime)
    requires Valid(t)
    ensures Valid(r)
    ensures r.hour == t.hour && r.minute == t.minute && r.second == t.second
    decreases if n < 0 then -n else n
  {
    if n == 0 then t
    else if n > 0 then AddDays(NextDay(t), n - 1)
    else AddDays(PrevDay(t), n + 1)
  }

  /** Moving back a positive number of days gives an earlier time, forward a later one. */
  lemma {:induction false} AddDaysOrder(t: DateTime, n: int)
    requires Valid(t)
    ensures n < 0 ==> Before(AddDays(t, n), t)
    ensures n > 0 ==> Before(t, AddDays(t, n))
    decreases if n < 0 then -n else n
  {
    if n < -1 {
      AddDaysOrder(PrevDay(t), n + 1);
      BeforeTransitive(AddDays(t, n), PrevDay(t), t);
    } else if n > 1 {
      AddDaysOrder(NextDay(t), n - 1);
      BeforeTransitive(t, NextDay(t), AddDays(t, n));
    }
  }

  /** Moving `n` days and then `-n` days comes back to the start. */
  lemma {:induction false} AddDaysInverse(t: DateTime, n: int)
    requires Valid(t)
    ensures AddDays(AddDays(t, n), -n) == t
    decreases if n < 0 then -n else n
  {
    if n > 0 {
      AddDaysInverse(NextDay(t), n - 1);
      AddDaysStepBack(AddDays(t, n), n);
      PrevNextDay(t);
    } else if n < 0 {
      AddDaysInverse(PrevDay(t), n + 1);
      AddDaysStepForward(AddDays(t, n), -n);
      PrevNextDay(t);
    }
  }

  /** Going back `a + b` days is going back `a` days and then `b` more. */
  lemma {:induction false} AddDaysBackTwice(t: DateTime, a: nat, b: nat)
    requires Valid(t)
    ensures AddDays(t, -((a + b) as int)) == AddDays(AddDays(t, -(a as int)), -(b as int))
    decreases a
  {
    if a > 0 {
      AddDaysBackTwice(PrevDay(t), a - 1, b);
    }
  }

  /** `AddDays(u, -n)` takes its first step back at the end instead of the start. */
  lemma {:induction false} AddDaysStepBack(u: DateTime, n: int)
    requires Valid(u) && n > 0
    ensures AddDays(u, -n) == PrevDay(AddDays(u, -(n - 1)))
    decreases n
  {
    if n > 1 {
      AddDaysStepBack(PrevDay(u), n - 1);
    }
  }

  lemma {:induction false} AddDaysStepForward(u: DateTime, n: int)
    requires Valid(u) && n > 0
    ensures AddDays(u, n) == NextDay(AddDays(u, n - 1))
    decreases n
  {
    if n > 1 {
      AddDaysStepForward(NextDay(u), n - 1);
    }
  }

  // ---------------------------------------------------------------- day numbers and weekdays

  /** Days from 1 January of year 1 (proleptic Gregorian calendar) to 1 January of year `y`. */
  function DaysBeforeYear(y: int): int
  {
    365 * (y - 1) + (y - 1) / 4 - (y - 1) / 100 + (y - 1) / 400
  }

  function DaysBeforeMonth(y: int, m: int): int
    requires 1 <= m <= 12
  {
    var table := [0, 31, 59, 90, 120, 151, 181, 212, 243, 273, 304, 334];
    table[m - 1] + (if m > 2 && IsLeapYear(y) then 1 else 0)
  }

  /** The number of the calendar day of `t`, counting 1 January of year 1 as day 0. */
  function DayNumber(t: DateTime): int
    requires Valid(t)
  {
    DaysBeforeYear(t.year) + DaysBeforeMonth(t.year, t.month) + t.day - 1
  }

  lemma LeapCount(y: int)
    ensures y / 4 - (y - 1) / 4 == (if y % 4 == 0 then 1 else 0)
    ensures y / 100 - (y - 1) / 100 == (if y % 100 == 0 then 1 else 0)
    ensures y / 400 - (y - 1) / 400 == (if y % 400 == 0 then 1 else 0)
  {
  }

  /** A year has 366 days exactly when it is a leap year. */
  lemma YearLength(y: int)
    ensures DaysBeforeYear(y + 1) - DaysBeforeYear(y) == (if IsLeapYear(y) then 366 else 365)
  {
    LeapCount(y);
  }

  /** The next calendar day has the next day number. */
  lemma DayNumberNext(t: DateTime)
    requires Valid(t)
    ensures DayNumber(NextDay(t)) == DayNumber(t) + 1
  {
    if t.day == DaysInMonth(t.year, t.month) && t.month == 12 {
      YearLength(t.year);
    }
  }

  /** Moving `n` calendar days moves the day number by exactly `n`. */
  lemma {:induction false} DayNumberAddDays(t: DateTime, n: int)
    requires Valid(t)
    ensures DayNumber(AddDays(t, n)) == DayNumber(t) + n
    decreases if n < 0 then -n else n
  {
    if n > 0 {
      DayNumberNext(t);
      DayNumberAddDays(NextDay(t), n - 1);
    } else if n < 0 {
      DayNumberNext(PrevDay(t));
      PrevNextDay(t);
      DayNumberAddDays(PrevDay(t), n + 1);
    }
  }

  /** `Date.prototype.getDay()`: 0 for Sunday up to 6 for Saturday (day 0 was a Monday). */
  function DayOfWeek(t: DateTime): (w: int)
    requires Valid(t)
    ensures 0 <= w < 7
  {
    (DayNumber(t) + 1) % 7
  }

  /** Weekdays follow each other: the next day is the next weekday, Saturday wrapping to Sunday. */
  lemma DayOfWeekNext(t: DateTime)
    requires Valid(t)
    ensures DayOfWeek(NextDay(t)) == (DayOfWeek(t) + 1) % 7
  {
    var n := DayNumber(t);
    DayNumberNext(t);
    WeekShift(n + 1, 1);
  }

  lemma SameWeekday(m: int)
    ensures (m + 7) % 7 == m % 7
  {
  }

  lemma WeekShift(n: int, k: int)
    ensures (n + k) % 7 == (n % 7 + k) % 7
  {
  }

  /** Anchor: 1 January 1970 was a Thursday. */
  lemma EpochIsThursday()
    ensures DayOfWeek(DateTime(1970, 1, 1, 0, 0, 0)) == 4
  {
  }

  /** The weekday names the dashboard shows, indexed by `getDay()`. */
  const Weekdays: seq<string> :=
    ["Sonntag", "Montag", "Dienstag", "Mittwoch", "Donnerstag", "Freitag", "Samstag"]

  /** `weekdays[date.getDay()]`. */
  function FormatWeekday(t: DateTime): string
    requires Valid(t)
  {
    Weekdays[DayOfWeek(t)]
  }

  /** A week later is the same weekday name. */
  lemma {:induction false} WeekdayRepeatsWeekly(t: DateTime)
    requires Valid(t)
    ensures FormatWeekday(AddDays(t, 7)) == FormatWeekday(t)
  {
    var later := AddDays(t, 7);
    DayNumberAddDays(t, 7);
    var n := DayNumber(t);
    assert DayOfWeek(later) == (n + 1 + 7) % 7;
    SameWeekday(n + 1);
  }

  // ---------------------------------------------------------------- string formats

  /** The year as `toISOString` writes it: four digits for 0..9999, otherwise a sign and six digits. */
  function IsoYear(y: int): string
  {
    if 0 <= y <= 9999 then PadStart(NatToString(y), 4)
    else (if y < 0 then "-" else "+") + PadStart(NatToString(if y < 0 then -y else y), 6)
  }

  /** `s.padStart(n, "0")`. */
  function PadStart(s: string, n: nat): (r: string)
    ensures |r| == if |s| < n then n else |s|
    decreases n - |s|
  {
    if |s| < n then PadStart("0" + s, n) else s
  }

  /** `new Date(getFullYear(), getMonth(), getDate(), getHours(), getMinutes())`: the constructor reads
      a year 0..99 as 1900..1999, and a 29 February that the new year lacks rolls over to 1 March; the
      seconds become 0 and every other field is kept. */
  function Rebuilt(t: DateTime): (r: DateTime)
    requires Valid(t)
    ensures Valid(r) && r.second == 0 && r.hour == t.hour && r.minute == t.minute
    ensures !(0 <= t.year <= 99) ==> r == t.(second := 0)
    ensures 0 <= t.year <= 99 ==> r.year == t.year + 1900
  {
    if 0 <= t.year <= 99 then
      if t.month == 2 && t.day == 29 && !IsLeapYear(t.year + 1900)
      then t.(year := t.year + 1900, month := 3, day := 1, second := 0)
      else t.(year := t.year + 1900, second := 0)
    else t.(second := 0)
  }

  /** `new Date(...).toISOString().slice(0, 16)` of the rebuilt date: the minute bucket key
      `YYYY-MM-DDTHH:MM` (seconds dropped). */
  function MinuteKey(t: DateTime): string
    requires Valid(t)
  {
    IsoMinute(Rebuilt(t))
  }

  /** `d.toISOString().slice(0, 16)`. */
  function IsoMinute(d: DateTime): string
    requires Valid(d)
  {
    var iso := IsoYear(d.year) + "-" + Pad2(d.month) + "-" + Pad2(d.day) + "T" +
               Pad2(d.hour) + ":" + Pad2(d.minute) + ":" + Pad2(d.second) + ".000Z";
    iso[..16]
  }

  /** `key.replace("T", " ")`: the minute key as the history API shows it, `YYYY-MM-DD HH:MM`. */
  function DisplayMinute(key: string): string
  {
    ReplaceFirst(key, 'T', ' ')
  }

  /** `${y}-${MM}-${DD}`: the day bucket key of the client. */
  function DayKey(t: DateTime): string
    requires Valid(t)
  {
    IntToString(t.year) + "-" + Pad2(t.month) + "-" + Pad2(t.day)
  }

  /** `${y}-${MM}-${DD} ${HH}:00:00`: the hour bucket key of the client. */
  function HourKey(t: DateTime): string
    requires Valid(t)
  {
    DayKey(t) + " " + Pad2(t.hour) + ":00:00"
  }

  /** The last two characters of a string (`slice(-2)`). */
  function LastTwo(s: string): string
  {
    if |s| >= 2 then s[|s| - 2..] else s
  }

  /** `formatDate`: `DD.MM.YY`, with the last two characters of the year. */
  function FormatDate(t: DateTime): string
    requires Valid(t)
  {
    Pad2(t.day) + "." + Pad2(t.month) + "." + LastTwo(IntToString(t.year))
  }

  /** `formatTime`: `HH:MM`. */
  function FormatTime(t: DateTime): string
    requires Valid(t)
  {
    Pad2(t.hour) + ":" + Pad2(t.minute)
  }

  // ---------------------------------------------------------------- reading dates back

  predicate AllDigits(s: string)
  {
    forall i :: 0 <= i < |s| ==> IsDigit(s[i])
  }

  /** `new Date(s)` for a date-only `YYYY-MM-DD` string: midnight of that day; `None` is an invalid date. */
  function ParseDayKey(s: string): (r: Option<DateTime>)
    ensures r.Some? ==> Valid(r.value) && FourDigitYear(r.value)
  {
    if |s| == 10 && AllDigits(s[..4]) && s[4] == '-' && AllDigits(s[5..7]) && s[7] == '-' &&
       AllDigits(s[8..10])
    then
      var t := DateTime(DigitsValue(s[..4]), DigitsValue(s[5..7]), DigitsValue(s[8..10]), 0, 0, 0);
      if Valid(t) && FourDigitYear(t) then Some(t) else None
    else None
  }

  /** `new Date(s)` for a `YYYY-MM-DD HH:MM` string, the history API's timestamps. */
  function ParseDisplayMinute(s: string): (r: Option<DateTime>)
    ensures r.Some? ==> Valid(r.value) && FourDigitYear(r.value) && r.value.second == 0
  {
    if |s| == 16 && s[10] == ' ' && AllDigits(s[11..13]) && s[13] == ':' && AllDigits(s[14..16])
    then
      match ParseDayKey(s[..10])
      case None => None
      case Some(d) =>
        var t := d.(hour := DigitsValue(s[11..13]), minute := DigitsValue(s[14..16]));
        if Valid(t) then Some(t) else None
    else None
  }

  lemma FourDigits(y: int)
    requires 1000 <= y <= 9999
    ensures |IntToString(y)| == 4 && AllDigits(IntToString(y))
    ensures IsoYear(y) == IntToString(y)
    ensures DigitsValue(IntToString(y)) == y
  {
    NatToStringLength(y);
    NatToStringValue(y);
  }

  /** The day key of a date with a four-digit year reads back as that day. */
  lemma ParseDayKeyRoundTrip(t: DateTime)
    requires Valid(t) && FourDigitYear(t)
    ensures ParseDayKey(DayKey(t)) == Some(t.(hour := 0, minute := 0, second := 0))
  {
    FourDigits(t.year);
    Pad2Digits(t.month);
    Pad2Digits(t.day);
    var s := DayKey(t);
    assert s[..4] == IntToString(t.year);
    assert s[5..7] == Pad2(t.month);
    assert s[8..10] == Pad2(t.day);
  }

  /** The minute key is the display string with `T` for the space, and the day key is its first ten characters. */
  lemma MinuteKeyShape(t: DateTime)
    requires Valid(t) && FourDigitYear(t)
    ensures MinuteKey(t) == DayKey(t) + "T" + Pad2(t.hour) + ":" + Pad2(t.minute)
    ensures DisplayMinute(MinuteKey(t)) == DayKey(t) + " " + Pad2(t.hour) + ":" + Pad2(t.minute)
  {
    var d := Rebuilt(t);
    assert DayKey(d) == DayKey(t);
    IsoMinuteShape(d);
    FourDigits(t.year);
    Pad2Digits(t.month);
    Pad2Digits(t.day);
    Pad2Digits(t.hour);
    Pad2Digits(t.minute);
    var key := MinuteKey(t);
    assert 'T' in key && FirstIndex(key, 'T') == 10 by {
      assert key[10] == 'T';
      assert forall i :: 0 <= i < 10 ==> key[i] != 'T' by {
        assert key[..10] == DayKey(t);
      }
      assert 'T' !in key[..10];
    }
    assert key[..10] == DayKey(t);
    assert key[11..] == Pad2(t.hour) + ":" + Pad2(t.minute);
  }

  /** For a four-digit year the ISO minute is the day key, `T`, and the padded hour and minute. */
  lemma IsoMinuteShape(d: DateTime)
    requires Valid(d) && FourDigitYear(d)
    ensures IsoMinute(d) == DayKey(d) + "T" + Pad2(d.hour) + ":" + Pad2(d.minute)
  {
    FourDigits(d.year);
    Pad2Digits(d.month);
    Pad2Digits(d.day);
    Pad2Digits(d.hour);
    Pad2Digits(d.minute);
  }

  /** A reading dated in the years 0..99 is bucketed under 1900..1999: the key starts with the four
      digits of `year + 1900` and keeps the hour and the minute. */
  lemma TwoDigitYearKey(t: DateTime)
    requires Valid(t) && 0 <= t.year <= 99
    ensures var key := MinuteKey(t);
            key[..4] == IntToString(t.year + 1900) && DigitsValue(key[..4]) == t.year + 1900 &&
            key[10..] == "T" + Pad2(t.hour) + ":" + Pad2(t.minute)
  {
    var d := Rebuilt(t);
    assert MinuteKey(t) == IsoMinute(d);
    IsoMinuteShape(d);
    DayKeyYear(d);
    KeyParts(DayKey(d), Pad2(d.hour), Pad2(d.minute));
  }

  /** The parts of `day + "T" + hh + ":" + mm` for a ten-character day. */
  lemma KeyParts(day: string, hh: string, mm: string)
    requires |day| == 10
    ensures var key := day + "T" + hh + ":" + mm;
            key[..4] == day[..4] && key[10..] == "T" + hh + ":" + mm
  {
    var key := day + "T" + hh + ":" + mm;
    assert key == day + ("T" + hh + ":" + mm);
  }

  /** A day key is ten characters that start with the year's four digits. */
  lemma DayKeyYear(t: DateTime)
    requires Valid(t) && FourDigitYear(t)
    ensures |DayKey(t)| == 10 && DayKey(t)[..4] == IntToString(t.year)
    ensures DigitsValue(IntToString(t.year)) == t.year
  {
    FourDigits(t.year);
    Pad2Digits(t.month);
    Pad2Digits(t.day);
  }

  /** What the history API displays for a reading's minute reads back, in the client, as that
      minute with the seconds dropped. */
  lemma ParseDisplayMinuteRoundTrip(t: DateTime)
    requires Valid(t) && FourDigitYear(t)
    ensures ParseDisplayMinute(DisplayMinute(MinuteKey(t))) == Some(t.(second := 0))
  {
    MinuteKeyShape(t);
    ParseDayKeyRoundTrip(t);
    ParseDayAndTime(DayKey(t), t.hour, t.minute);
  }

  /** A day key followed by a two-digit hour and minute reads as that moment of the day. */
  lemma ParseDayAndTime(day: string, hour: nat, minute: nat)
    requires ParseDayKey(day).Some? && hour < 24 && minute < 60
    ensures ParseDisplayMinute(day + " " + Pad2(hour) + ":" + Pad2(minute)) ==
            Some(ParseDayKey(day).value.(hour := hour, minute := minute))
  {
    Pad2Digits(hour);
    Pad2Digits(minute);
    assert |day| == 10;
    TimeParts(day, Pad2(hour), Pad2(minute));
  }

  /** The parts of `day + " " + hh + ":" + mm` for a ten-character day and two-character fields. */
  lemma TimeParts(day: string, hh: string, mm: string)
    requires |day| == 10 && |hh| == 2 && |mm| == 2
    ensures var s := day + " " + hh + ":" + mm;
            |s| == 16 && s[..10] == day && s[10] == ' ' && s[11..13] == hh && s[13] == ':' && s[14..16] == mm
  {
    var s := day + " " + hh + ":" + mm;
    assert s[11..13] == hh;
    assert s[14..16] == mm;
  }

  /** `formatDate` writes day, month and the year's last two digits, each as two digits. */
  lemma FormatDateShape(t: DateTime)
    requires Valid(t) && FourDigitYear(t)
    ensures var s := FormatDate(t);
            |s| == 8 && s[2] == '.' && s[5] == '.' &&
            DigitsValue(s[..2]) == t.day && DigitsValue(s[3..5]) == t.month &&
            AllDigits(s[6..]) && DigitsValue(s[6..]) == t.year % 100
  {
    YearLastTwo(t.year);
    Pad2Digits(t.day);
    Pad2Digits(t.month);
    var s := FormatDate(t);
    assert s[..2] == Pad2(t.day);
    assert s[3..5] == Pad2(t.month);
    assert s[6..] == LastTwo(IntToString(t.year));
  }

  /** The last two characters of a four-digit year are the year modulo 100. */
  lemma YearLastTwo(y: int)
    requires 1000 <= y <= 9999
    ensures var l := LastTwo(IntToString(y));
            |l| == 2 && AllDigits(l) && DigitsValue(l) == y % 100
  {
    FourDigits(y);
    var s := IntToString(y);
    var l := LastTwo(s);
    assert l == s[2..];
    DigitsValueSplit(s[..2], l);
    assert s[..2] + l == s;
    TwoDigitsBelow100(l);
    HundredsRemainder(DigitsValue(s[..2]), DigitsValue(l));
  }

  lemma HundredsRemainder(a: nat, b: nat)
    requires b < 100
    ensures (a * 100 + b) % 100 == b
  {
  }

  lemma TwoDigitsBelow100(b: string)
    requires |b| == 2 && AllDigits(b)
    ensures DigitsValue(b) < 100
  {
    var first := b[..1];
    assert first[..0] == [];
    assert DigitsValue(first) == DigitOf(b[0]);
    assert DigitsValue(b) == DigitOf(b[0]) * 10 + DigitOf(b[1]);
  }

  lemma {:induction false} DigitsValueSplit(a: string, b: string)
    requires AllDigits(a) && AllDigits(b) && |b| == 2
    ensures AllDigits(a + b)
    ensures DigitsValue(a + b) == DigitsValue(a) * 100 + DigitsValue(b)
  {
    var s := a + b;
    var a0 := a + [b[0]];
    assert s[..|s| - 1] == a0;
    assert a0[..|a0| - 1] == a;
    assert b[..1] == [b[0]];
    assert [b[0]][..0] == [];
    var d0, d1 := DigitOf(b[0]), DigitOf(b[1]);
    assert DigitsValue(a0) == DigitsValue(a) * 10 + d0;
    assert DigitsValue(s) == DigitsValue(a0) * 10 + d1;
    assert DigitsValue([b[0]]) == d0 by {
      assert [b[0]][..0] == [];
    }
    assert DigitsValue(b) == DigitsValue(b[..1]) * 10 + d1;
  }

  /** `formatTime` writes hour and minute as two digits each around a colon. */
  lemma FormatTimeShape(t: DateTime)
    requires Valid(t)
    ensures var s := FormatTime(t);
            |s| == 5 && s[2] == ':' && AllDigits(s[..2]) && AllDigits(s[3..]) &&
            DigitsValue(s[..2]) == t.hour && DigitsValue(s[3..]) == t.minute
  {
    Pad2Digits(t.hour);
    Pad2Digits(t.minute);
    var s := FormatTime(t);
    assert s[..2] == Pad2(t.hour);
    assert s[3..] == Pad2(t.minute);
  }
}
