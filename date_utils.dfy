/**
 * Wall-clock date helpers: reading user input, the `datetime-local` form text, and the
 * first and last instants of the day, the (Monday-based) week, the month and the year.
 */
module DateUtils {
  import opened Wrappers
  import opened JsText
  import opened CivilTime
  import opened DateStrings

  /**
   * `parseInputDate(value)`: `None` for a missing or empty value; `D/M/Y` text is local
   * midnight of that day (JavaScript overflow rules, two-digit years meaning 19xx) unless a
   * part is missing, zero or not a number; any other text is read as a date-time string.
   */
  function ParseInputDate(value: Option<string>): Option<Instant> {
    if value.None? || value.value == "" then None
    else if '/' in value.value then SlashParts(Split(value.value, '/'))
    else ParseDateString(value.value)
  }

  /** `const [day, month, year] = value.split('/').map(Number)`, then the truthiness check and `new Date(year, month - 1, day)`. */
  function SlashParts(parts: seq<string>): Option<Instant> {
    if |parts| < 3 then None
    else
      var day, month, year := NumberOf(parts[0]), NumberOf(parts[1]), NumberOf(parts[2]);
      if !Truthy(day) || !Truthy(month) || !Truthy(year) then None
      else Some(FromFields(year.value, month.value - 1, day.value, 0, 0, 0, 0))
  }

  /** `D/M/Y` with the numbers printed as `String` prints them. */
  function SlashDate(d: int, m: int, y: int): string {
    IntToString(d) + "/" + IntToString(m) + "/" + IntToString(y)
  }

  /** `toLocalDateTimeInput(date)`: `YYYY-MM-DDTHH:mm`, the year unpadded, the other fields two digits. */
  function ToLocalDateTimeInput(t: Instant): string {
    IntToString(t.year) + ("-" + (PadNat(t.month, 2) + ("-" + (PadNat(t.day, 2) + ("T" +
      (PadNat(t.hour, 2) + (":" + PadNat(t.minute, 2))))))))
  }

  function StartOfDay(t: Instant): Instant {
    FromFields(t.year, t.month - 1, t.day, 0, 0, 0, 0)
  }

  function EndOfDay(t: Instant): Instant {
    FromFields(t.year, t.month - 1, t.day, 23, 59, 59, 999)
  }

  /** The number of days back from `t` to the Monday of its week. */
  function DaysSinceMonday(t: Instant): (r: int)
    ensures 0 <= r < 7
  {
    (Weekday(t) + 6) % 7
  }

  /** Start of the day, then back to Monday (`setDate(getDate() - diff)`). */
  function StartOfWeek(t: Instant): Instant {
    var result := StartOfDay(t);
    SetDate(result, result.day - DaysSinceMonday(result))
  }

  /** Start of the week, six days on, then the end of that day. */
  function EndOfWeek(t: Instant): Instant {
    var result := StartOfWeek(t);
    EndOfDay(SetDate(result, result.day + 6))
  }

  function StartOfMonth(t: Instant): Instant {
    FromFields(t.year, t.month - 1, 1, 0, 0, 0, 0)
  }

  /** Day 0 of the next month, which is the last day of this one. */
  function EndOfMonth(t: Instant): Instant {
    FromFields(t.year, t.month, 0, 23, 59, 59, 999)
  }

  function StartOfYear(t: Instant): Instant {
    FromFields(t.year, 0, 1, 0, 0, 0, 0)
  }

  function EndOfYear(t: Instant): Instant {
    FromFields(t.year, 11, 31, 23, 59, 59, 999)
  }

  /** A year that the `Date` constructor takes as it is (it reads 0..99 as 1900..1999). */
  predicate FourDigitSafe(y: int) {
    y < 0 || y > 99
  }

  // ---- Properties ----

  /** In-range fields given to the `Date` constructor denote exactly that date and time. */
  lemma FromFieldsInRange(t: Instant)
    requires FourDigitSafe(t.year)
    ensures FromFields(t.year, t.month - 1, t.day, t.hour, t.minute, t.second, t.ms) == t
  {
    var r := FromFields(t.year, t.month - 1, t.day, t.hour, t.minute, t.second, t.ms);
    assert MonthSplit(t.month - 1) == (0, t.month);
    assert TimeValue(r) == TimeValue(t);
    TimeValueInjective(r, t);
  }

  /** The constructor moves the years 0..99 into the twentieth century. */
  lemma StartOfDayTwoDigitYear(t: Instant)
    requires 0 <= t.year <= 99
    ensures TimeValue(StartOfDay(t)) == DayNumber(t.year + 1900, t.month, t.day) * MsPerDay
  {
    assert FullYear(t.year) == t.year + 1900;
    assert MonthSplit(t.month - 1) == (0, t.month);
    assert StartOfDay(t) == FromFields(t.year, t.month - 1, t.day, 0, 0, 0, 0);
  }

  /** `startOfDay` keeps the calendar day and is midnight; `endOfDay` is 23:59:59.999; `d` lies between. */
  lemma DayBounds(t: Instant)
    requires FourDigitSafe(t.year)
    ensures StartOfDay(t) == DateTime(t.year, t.month, t.day, 0, 0, 0, 0)
    ensures EndOfDay(t) == DateTime(t.year, t.month, t.day, 23, 59, 59, 999)
    ensures TimeValue(StartOfDay(t)) <= TimeValue(t) <= TimeValue(EndOfDay(t))
  {
    FromFieldsInRange(DateTime(t.year, t.month, t.day, 0, 0, 0, 0));
    FromFieldsInRange(DateTime(t.year, t.month, t.day, 23, 59, 59, 999));
  }

  /** Two instants less than a year apart lie in the same year or in consecutive years. */
  lemma YearsClose(a: Instant, b: Instant)
    requires EpochDay(a) <= EpochDay(b) < EpochDay(a) + 365
    ensures a.year <= b.year <= a.year + 1
  {
    DayWithinYear(a.year, a.month, a.day);
    DayWithinYear(b.year, b.month, b.day);
    NextYearStart(a.year);
    if b.year > a.year + 1 {
      YearStartsIncrease(a.year + 1, b.year);
    } else if b.year < a.year {
      YearStartsIncrease(b.year, a.year);
    }
  }

  /** `startOfDay` is midnight of the same day. */
  lemma StartOfDayParts(t: Instant)
    requires FourDigitSafe(t.year)
    ensures EpochDay(StartOfDay(t)) == EpochDay(t) && MsOfDay(StartOfDay(t)) == 0
  {
    var r := StartOfDay(t);
    assert MonthSplit(t.month - 1) == (0, t.month);
    assert TimeValue(r) == EpochDay(t) * MsPerDay;
    SplitTimeValue(r);
  }

  /** `endOfDay` is the last millisecond of the same day. */
  lemma EndOfDayParts(t: Instant)
    requires FourDigitSafe(t.year)
    ensures EpochDay(EndOfDay(t)) == EpochDay(t) && MsOfDay(EndOfDay(t)) == MsPerDay - 1
  {
    var r := EndOfDay(t);
    assert MonthSplit(t.month - 1) == (0, t.month);
    assert TimeValue(r) == EpochDay(t) * MsPerDay + MsPerDay - 1;
    SplitTimeValue(r);
  }

  lemma SetDateShift(r: Instant, d: int)
    ensures EpochDay(SetDate(r, d)) == EpochDay(r) + (d - r.day) && MsOfDay(SetDate(r, d)) == MsOfDay(r)
  {
  }

  /** Going back `DaysSinceMonday(t)` days from the day of `t` reaches a Monday. */
  lemma MondayOf(s: Instant, t: Instant)
    requires EpochDay(s) == EpochDay(t) - DaysSinceMonday(t)
    ensures Weekday(s) == 1
  {
    MondayWeekday(EpochDay(t), DaysSinceMonday(t));
  }

  /** Six days after a Monday is a Sunday. */
  lemma SundayOf(e: Instant, s: Instant)
    requires Weekday(s) == 1 && EpochDay(e) == EpochDay(s) + 6
    ensures Weekday(e) == 0
  {
    SundayAfterMonday(EpochDay(s));
  }

  lemma SameWeekday(a: Instant, b: Instant)
    requires EpochDay(a) == EpochDay(b)
    ensures Weekday(a) == Weekday(b) && DaysSinceMonday(a) == DaysSinceMonday(b)
  {
  }

  /** `startOfWeek` is the Monday 0 to 6 days on or before the date, at midnight. */
  lemma StartOfWeekBounds(t: Instant)
    requires FourDigitSafe(t.year)
    ensures var s := StartOfWeek(t);
      && Weekday(s) == 1 && MsOfDay(s) == 0
      && EpochDay(s) == EpochDay(t) - DaysSinceMonday(t)
      && TimeValue(s) <= TimeValue(t)
  {
    var r := StartOfDay(t);
    StartOfDayParts(t);
    SameWeekday(r, t);
    SetDateShift(r, r.day - DaysSinceMonday(r));
    MondayOf(StartOfWeek(t), t);
  }

  /**
   * `endOfWeek` is 23:59:59.999 on the Sunday six days after the week's Monday, which is
   * on or after the date.
   */
  lemma EndOfWeekBounds(t: Instant)
    requires FourDigitSafe(t.year) && FourDigitSafe(t.year + 1)
    ensures var e := EndOfWeek(t);
      && Weekday(e) == 0 && MsOfDay(e) == MsPerDay - 1
      && EpochDay(e) == EpochDay(StartOfWeek(t)) + 6
      && TimeValue(t) <= TimeValue(e)
  {
    var s := StartOfWeek(t);
    var sunday := SetDate(s, s.day + 6);
    EndOfWeekUnfold(t);
    StartOfWeekBounds(t);
    SetDateShift(s, s.day + 6);
    SundayOf(sunday, s);
    YearsClose(t, sunday);
    EndOfDayParts(sunday);
    SameWeekday(EndOfDay(sunday), sunday);
  }

  lemma EndOfWeekUnfold(t: Instant)
    ensures var s := StartOfWeek(t); EndOfWeek(t) == EndOfDay(SetDate(s, s.day + 6))
  {
  }

  lemma SundayAfterMonday(e: int)
    requires (e + 4) % 7 == 1
    ensures (e + 6 + 4) % 7 == 0
  {
  }

  /** Stepping back `(weekday + 6) % 7` days lands on a Monday, and six more days on a Sunday. */
  lemma MondayWeekday(e: int, back: int)
    requires back == ((e + 4) % 7 + 6) % 7
    ensures (e - back + 4) % 7 == 1
  {
    var w := (e + 4) % 7;
    assert e + 4 == 7 * ((e + 4) / 7) + w;
    assert 0 <= w < 7;
    if w == 0 {
      assert e - back + 4 == 7 * ((e + 4) / 7) - 6;
    } else {
      assert e - back + 4 == 7 * ((e + 4) / 7) + 1;
    }
  }

  /** Instants compare as their days, then as their times of day. */
  lemma TimeOrder(a: Instant, b: Instant)
    requires EpochDay(a) < EpochDay(b) || (EpochDay(a) == EpochDay(b) && MsOfDay(a) <= MsOfDay(b))
    ensures TimeValue(a) <= TimeValue(b)
  {
  }

  /** `startOfMonth` is day 1 at midnight; `endOfMonth` the month's last day at 23:59:59.999; `d` lies between. */
  lemma MonthBounds(t: Instant)
    requires FourDigitSafe(t.year)
    ensures StartOfMonth(t) == DateTime(t.year, t.month, 1, 0, 0, 0, 0)
    ensures EndOfMonth(t) == DateTime(t.year, t.month, DaysInMonth(t.year, t.month), 23, 59, 59, 999)
    ensures TimeValue(StartOfMonth(t)) <= TimeValue(t) <= TimeValue(EndOfMonth(t))
  {
    var first: Instant := DateTime(t.year, t.month, 1, 0, 0, 0, 0);
    var last: Instant := DateTime(t.year, t.month, DaysInMonth(t.year, t.month), 23, 59, 59, 999);
    FromFieldsInRange(first);
    EndOfMonthDay(t);
    TimeOrder(first, t);
    TimeOrder(t, last);
  }

  lemma EndOfMonthDay(t: Instant)
    requires FourDigitSafe(t.year)
    ensures EndOfMonth(t) == DateTime(t.year, t.month, DaysInMonth(t.year, t.month), 23, 59, 59, 999)
  {
    var last: Instant := DateTime(t.year, t.month, DaysInMonth(t.year, t.month), 23, 59, 59, 999);
    EndOfMonthParts(t);
    SameDayAndTime(EndOfMonth(t), last);
  }

  lemma EndOfMonthParts(t: Instant)
    requires FourDigitSafe(t.year)
    ensures EpochDay(EndOfMonth(t)) == DayNumber(t.year, t.month, DaysInMonth(t.year, t.month))
    ensures MsOfDay(EndOfMonth(t)) == MsPerDay - 1
  {
    var e := EndOfMonth(t);
    NextMonthDayNumber(t.year, t.month, 0);
    var n := NextMonth(t.year, t.month);
    assert t.year + MonthSplit(t.month).0 == n.0 && MonthSplit(t.month).1 == n.1;
    assert TimeValue(e) == DayNumber(n.0, n.1, 0) * MsPerDay + MsPerDay - 1;
    SplitTimeValue(e);
  }

  /** `startOfYear` is 1 January at midnight; `endOfYear` is 31 December at 23:59:59.999; `d` lies between. */
  lemma YearBounds(t: Instant)
    requires FourDigitSafe(t.year)
    ensures StartOfYear(t) == DateTime(t.year, 1, 1, 0, 0, 0, 0)
    ensures EndOfYear(t) == DateTime(t.year, 12, 31, 23, 59, 59, 999)
    ensures TimeValue(StartOfYear(t)) <= TimeValue(t) <= TimeValue(EndOfYear(t))
  {
    FromFieldsInRange(DateTime(t.year, 1, 1, 0, 0, 0, 0));
    FromFieldsInRange(DateTime(t.year, 12, 31, 23, 59, 59, 999));
    DayWithinYear(t.year, t.month, t.day);
    NextYearStart(t.year);
  }

  lemma NoSlashInNumber(i: int)
    ensures '/' !in IntToString(i)
  {
    var d := NatToString(if i < 0 then -i else i);
    assert forall k :: 0 <= k < |d| ==> IsDigit(d[k]);
  }

  lemma SplitSlashDate(d: int, m: int, y: int)
    ensures '/' in SlashDate(d, m, y)
    ensures Split(SlashDate(d, m, y), '/') == [IntToString(d), IntToString(m), IntToString(y)]
  {
    var parts := [IntToString(d), IntToString(m), IntToString(y)];
    NoSlashInNumber(d);
    NoSlashInNumber(m);
    NoSlashInNumber(y);
    assert JoinWith(parts, "/") == SlashDate(d, m, y) by {
      assert JoinWith(parts[2..], "/") == IntToString(y);
      assert JoinWith(parts[1..], "/") == IntToString(m) + "/" + IntToString(y);
    }
    SplitJoin(parts, '/');
    assert SlashDate(d, m, y)[|IntToString(d)|] == '/';
  }

  /**
   * Slash input with nonzero parts is local midnight of day `d` of month `m` of year `y`,
   * counted with overflow (`31/02/2026` is 3 March 2026).
   */
  lemma ParseSlashDate(d: int, m: int, y: int)
    requires d != 0 && m != 0 && y != 0
    ensures ParseInputDate(Some(SlashDate(d, m, y))) == Some(FromFields(y, m - 1, d, 0, 0, 0, 0))
  {
    SplitSlashDate(d, m, y);
    SlashBranch(SlashDate(d, m, y));
    SlashPartsOfNumbers(d, m, y);
  }

  /** Text with a slash is read as `D/M/Y`. */
  lemma SlashBranch(s: string)
    requires '/' in s
    ensures ParseInputDate(Some(s)) == SlashParts(Split(s, '/'))
  {
  }

  lemma SlashPartsOfNumbers(d: int, m: int, y: int)
    requires d != 0 && m != 0 && y != 0
    ensures SlashParts([IntToString(d), IntToString(m), IntToString(y)]) == Some(FromFields(y, m - 1, d, 0, 0, 0, 0))
  {
    NumberOfIntToString(d);
    NumberOfIntToString(m);
    NumberOfIntToString(y);
  }

  /** A valid day written as `D/M/Y` reads back as that day, at midnight. */
  lemma ParseSlashDateInRange(t: Instant)
    requires t.year > 99
    ensures ParseInputDate(Some(SlashDate(t.day, t.month, t.year))) == Some(StartOfDay(t))
  {
    assert StartOfDay(t) == FromFields(t.year, t.month - 1, t.day, 0, 0, 0, 0);
    ParseSlashDate(t.day, t.month, t.year);
  }

  /** A part that reads as zero or as no number makes slash input invalid, as in `00/00/0000`. */
  lemma ParseSlashZeroPart(s: string)
    requires '/' in s
    requires var parts := Split(s, '/');
      |parts| < 3 || exists i :: 0 <= i < 3 && !Truthy(NumberOf(parts[i]))
    ensures ParseInputDate(Some(s)) == None
  {
    var parts := Split(s, '/');
    if |parts| >= 3 {
      var i :| 0 <= i < 3 && !Truthy(NumberOf(parts[i]));
      assert i == 0 || i == 1 || i == 2;
    }
  }

  /** A run of zeros is the number 0. */
  lemma NumberOfZeros(z: string)
    requires z != [] && forall i :: 0 <= i < |z| ==> z[i] == '0'
    ensures NumberOf(z) == Num(0)
  {
    TrimUnchanged(z);
    ZerosValue(z);
  }

  /** A first part made of zeros makes slash input invalid, as in `00/00/0000`. */
  lemma ParseZeroDay(z: string, rest: string)
    requires z != [] && forall i :: 0 <= i < |z| ==> z[i] == '0'
    ensures ParseInputDate(Some(z + "/" + rest)) == None
  {
    var s := z + "/" + rest;
    assert '/' !in z;
    SplitPrefix(z, "/" + rest, '/');
    assert s == z + ("/" + rest);
    assert Split("/" + rest, '/')[0] == "" by {
      assert ("/" + rest)[1..] == rest;
    }
    assert Split(s, '/')[0] == z;
    assert s[|z|] == '/';
    SlashBranch(s);
    NumberOfZeros(z);
  }

  lemma FourDigitYearText(y: int)
    requires 1000 <= y <= 9999
    ensures IntToString(y) == PadNat(y, 4) && YearText(y) == PadNat(y, 4)
  {
    assert Pow10(3) == 1000 && Pow10(4) == 10000;
    NatToStringLongEnough(y, 3);
    NatToStringLength(y, 4, 10000);
  }

  /**
   * A `datetime-local` text read back with `parseInputDate` is the same local minute,
   * for the four-digit years that the form field accepts.
   */
  lemma ParseLocalDateTimeInput(t: Instant)
    requires 1000 <= t.year <= 9999
    ensures var r := ParseInputDate(Some(ToLocalDateTimeInput(t)));
      r.Some? && r.value == DateTime(t.year, t.month, t.day, t.hour, t.minute, 0, 0)
  {
    var u: Instant := DateTime(t.year, t.month, t.day, t.hour, t.minute, 0, 0);
    var s := ToLocalDateTimeInput(t);
    LocalInputNoSlash(t);
    TextBranch(s);
    LocalInputParts(t);
    FromPartsOfFields(u);
  }

  /** Text without a slash is read as a date-time string. */
  lemma TextBranch(s: string)
    requires s != [] && '/' !in s
    ensures ParseInputDate(Some(s)) == ParseDateString(s)
  {
  }

  lemma LocalInputNoSlash(t: Instant)
    ensures ToLocalDateTimeInput(t) != [] && '/' !in ToLocalDateTimeInput(t)
  {
    var s := ToLocalDateTimeInput(t);
    NoSlashInNumber(t.year);
    var rest := "-" + (PadNat(t.month, 2) + ("-" + (PadNat(t.day, 2) + ("T" +
      (PadNat(t.hour, 2) + (":" + PadNat(t.minute, 2)))))));
    assert s == IntToString(t.year) + rest;
    assert forall k :: 0 <= k < |rest| ==> IsDigit(rest[k]) || rest[k] in "-T:";
  }

  lemma LocalInputParts(t: Instant)
    requires 1000 <= t.year <= 9999
    ensures ParseDateString(ToLocalDateTimeInput(t)) == FromParts(t.year, t.month, t.day, Clock(t.hour, t.minute, 0, 0, 0))
  {
    var hm := "T" + (PadNat(t.hour, 2) + (":" + PadNat(t.minute, 2)));
    var tail := "-" + (PadNat(t.month, 2) + ("-" + (PadNat(t.day, 2) + hm)));
    var s := ToLocalDateTimeInput(t);
    FourDigitYearText(t.year);
    assert s == YearText(t.year) + tail;
    YearPartOfYearText(t.year, tail);
    MonthDayOfPad(t.month, t.day, hm);
    HourMinuteTime(t.hour, t.minute);
    ParseOfParts(s, t.year, tail, t.month, t.day, hm, Clock(t.hour, t.minute, 0, 0, 0));
  }

  lemma HourMinuteTime(h: nat, mi: nat)
    requires h < 100 && mi < 100
    ensures TimePart("T" + (PadNat(h, 2) + (":" + PadNat(mi, 2)))) == Some(Clock(h, mi, 0, 0, 0))
  {
    assert PadNat(mi, 2) + "" == PadNat(mi, 2);
    HourMinuteOfPad(h, mi, "");
    assert SecondsPart("") == (0, 0, "");
  }
}
