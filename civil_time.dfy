/**
 * Calendar arithmetic with the semantics of JavaScript's `Date`, on the proleptic
 * Gregorian calendar, in one local time zone that has no offset from UTC and no daylight
 * saving time (so a date's local fields and its UTC fields coincide).
 *
 * An instant is a civil record (year, month 1-12, day, hour, minute, second, millisecond)
 * whose fields are in range; `TimeValue` is the number of milliseconds since
 * 1970-01-01T00:00:00.000Z, which is what `Date` comparisons compare.
 */
module CivilTime {

  const MsPerDay := 86400000

  predicate IsLeapYear(y: int) {
    y % 4 == 0 && (y % 100 != 0 || y % 400 == 0)
  }

  function DaysInMonth(y: int, m: int): (n: int)
    requires 1 <= m <= 12
    ensures 28 <= n <= 31
  {
    if m == 2 then (if IsLeapYear(y) then 29 else 28)
    else if m == 4 || m == 6 || m == 9 || m == 11 then 30
    else 31
  }

  /** Days from 1970-01-01 to January 1st of year `y`, counted one year at a time. */
  function DaysBeforeYear(y: int): int
    decreases if y < 1970 then 1970 - y else y - 1970
  {
    if y == 1970 then 0
    else if y > 1970 then DaysBeforeYear(y - 1) + YearLength(y - 1)
    else DaysBeforeYear(y + 1) - YearLength(y)
  }

  function YearLength(y: int): int {
    if IsLeapYear(y) then 366 else 365
  }

  /** Each year starts one year length after the one before. */
  lemma NextYearStart(y: int)
    ensures DaysBeforeYear(y + 1) == DaysBeforeYear(y) + YearLength(y)
  {
  }

  /** Days from January 1st to the first day of month `m` of year `y`. */
  function DaysBeforeMonth(y: int, m: int): int
    requires 1 <= m <= 12
  {
    var leap := if m > 2 && IsLeapYear(y) then 1 else 0;
    leap + (
      if m == 1 then 0 else if m == 2 then 31 else if m == 3 then 59 else if m == 4 then 90
      else if m == 5 then 120 else if m == 6 then 151 else if m == 7 then 181 else if m == 8 then 212
      else if m == 9 then 243 else if m == 10 then 273 else if m == 11 then 304 else 334)
  }

  /**
   * The number of days from 1970-01-01 to day `d` of month `m` of year `y`; `d` may lie
   * outside the month (day 0 is the last day of the month before, day 32 is in the next).
   */
  function DayNumber(y: int, m: int, d: int): int
    requires 1 <= m <= 12
  {
    DaysBeforeYear(y) + DaysBeforeMonth(y, m) + d - 1
  }

  function NextMonth(y: int, m: int): (r: (int, int))
    requires 1 <= m <= 12
    ensures 1 <= r.1 <= 12
  {
    if m == 12 then (y + 1, 1) else (y, m + 1)
  }

  function PrevMonth(y: int, m: int): (r: (int, int))
    requires 1 <= m <= 12
    ensures 1 <= r.1 <= 12 && NextMonth(r.0, r.1) == (y, m)
  {
    if m == 1 then (y - 1, 12) else (y, m - 1)
  }

  /** Counting `d` days from the start of the next month is counting `d` plus the month's length from this one. */
  lemma NextMonthDayNumber(y: int, m: int, d: int)
    requires 1 <= m <= 12
    ensures DayNumber(NextMonth(y, m).0, NextMonth(y, m).1, d) == DayNumber(y, m, d + DaysInMonth(y, m))
  {
    if m == 12 {
      NextYearStart(y);
    }
  }

  /**
   * The in-range (year, month, day) that denotes the same day as day `d` of month `m` of
   * year `y`, moving whole months backwards or forwards (ECMA-262 MakeDay, then day overflow).
   */
  function NormDay(y: int, m: int, d: int): (r: (int, int, int))
    requires 1 <= m <= 12
    ensures 1 <= r.1 <= 12 && 1 <= r.2 <= DaysInMonth(r.0, r.1)
    ensures DayNumber(r.0, r.1, r.2) == DayNumber(y, m, d)
    decreases if d < 1 then 1 - d else 0, d
  {
    if d < 1 then
      var p := PrevMonth(y, m);
      NextMonthDayNumber(p.0, p.1, d);
      NormDay(p.0, p.1, d + DaysInMonth(p.0, p.1))
    else if d > DaysInMonth(y, m) then
      var n := NextMonth(y, m);
      NextMonthDayNumber(y, m, d - DaysInMonth(y, m));
      NormDay(n.0, n.1, d - DaysInMonth(y, m))
    else
      (y, m, d)
  }

  /** A date that is already in range is its own normal form. */
  lemma NormDayInRange(y: int, m: int, d: int)
    requires 1 <= m <= 12 && 1 <= d <= DaysInMonth(y, m)
    ensures NormDay(y, m, d) == (y, m, d)
  {
  }

  datatype DateTime = DateTime(year: int, month: int, day: int, hour: int, minute: int, second: int, ms: int)

  predicate IsValid(t: DateTime) {
    && 1 <= t.month <= 12 && 1 <= t.day <= DaysInMonth(t.year, t.month)
    && 0 <= t.hour < 24 && 0 <= t.minute < 60 && 0 <= t.second < 60 && 0 <= t.ms < 1000
  }

  /** A valid (non-NaN) JavaScript `Date`. */
  type Instant = t: DateTime | IsValid(t) witness DateTime(1970, 1, 1, 0, 0, 0, 0)

  /** Days since 1970-01-01 (what ECMA-262 calls Day(t)). */
  function EpochDay(t: Instant): int {
    DayNumber(t.year, t.month, t.day)
  }

  /** Milliseconds since midnight (ECMA-262 TimeWithinDay). */
  function MsOfDay(t: Instant): (r: int)
    ensures 0 <= r < MsPerDay
  {
    t.hour * 3600000 + t.minute * 60000 + t.second * 1000 + t.ms
  }

  /** `date.getTime()`. */
  function TimeValue(t: Instant): int {
    EpochDay(t) * MsPerDay + MsOfDay(t)
  }

  /** `date.getDay()`: 0 is Sunday, 1 is Monday, ..., 6 is Saturday (1970-01-01 was a Thursday). */
  function Weekday(t: Instant): (r: int)
    ensures 0 <= r < 7
  {
    (EpochDay(t) + 4) % 7
  }

  /** The same time of day on the in-range day that `(y, m, d)` denotes. */
  function OnDay(t: Instant, y: int, m: int, d: int): (r: Instant)
    requires 1 <= m <= 12
    ensures EpochDay(r) == DayNumber(y, m, d)
    ensures r.hour == t.hour && r.minute == t.minute && r.second == t.second && r.ms == t.ms
  {
    var c := NormDay(y, m, d);
    DateTime(c.0, c.1, c.2, t.hour, t.minute, t.second, t.ms)
  }

  /** `date.setDate(d)`: day `d` of the date's month, same time of day. */
  function SetDate(t: Instant, d: int): (r: Instant)
    ensures EpochDay(r) == DayNumber(t.year, t.month, d) && MsOfDay(r) == MsOfDay(t)
  {
    OnDay(t, t.year, t.month, d)
  }

  /**
   * A 0-based month count as whole years plus a 1-based month (floor division by 12); the
   * usual case 0..11 is written out so that it needs no division.
   */
  function MonthSplit(m0: int): (r: (int, int))
    ensures 1 <= r.1 <= 12 && m0 == 12 * r.0 + r.1 - 1
  {
    if 0 <= m0 < 12 then (0, m0 + 1) else (m0 / 12, m0 % 12 + 1)
  }

  /** A millisecond count as whole days plus the milliseconds into the last day (floor division). */
  function DaySplit(time: int): (r: (int, int))
    ensures 0 <= r.1 < MsPerDay && time == r.0 * MsPerDay + r.1
  {
    if 0 <= time < MsPerDay then (0, time) else (time / MsPerDay, time % MsPerDay)
  }

  /** `date.setMonth(m0)` with a 0-based month that may lie outside 0..11. */
  function SetMonth(t: Instant, m0: int): (r: Instant)
    ensures EpochDay(r) == DayNumber(t.year + MonthSplit(m0).0, MonthSplit(m0).1, t.day) && MsOfDay(r) == MsOfDay(t)
  {
    var ym := MonthSplit(m0);
    OnDay(t, t.year + ym.0, ym.1, t.day)
  }

  /** `date.setFullYear(y)`: the same month and day in year `y` (29 February may become 1 March). */
  function SetFullYear(t: Instant, y: int): (r: Instant)
    ensures EpochDay(r) == DayNumber(y, t.month, t.day) && MsOfDay(r) == MsOfDay(t)
  {
    OnDay(t, y, t.month, t.day)
  }

  /** `d.setDate(d.getDate() + k)`: exactly `k` days later, same time of day. */
  function AddDays(t: Instant, k: int): (r: Instant)
    ensures EpochDay(r) == EpochDay(t) + k && MsOfDay(r) == MsOfDay(t)
    ensures TimeValue(r) == TimeValue(t) + k * MsPerDay
  {
    SetDate(t, t.day + k)
  }

  /** `d.setMonth(d.getMonth() + k)`. */
  function AddMonths(t: Instant, k: int): Instant {
    SetMonth(t, t.month - 1 + k)
  }

  /** `d.setFullYear(d.getFullYear() + k)`. */
  function AddYears(t: Instant, k: int): Instant {
    SetFullYear(t, t.year + k)
  }

  /** JavaScript reads the years 0 to 99 given to the `Date` constructor and to `Date.UTC` as 1900 to 1999. */
  function FullYear(y: int): int {
    if 0 <= y <= 99 then 1900 + y else y
  }

  /**
   * The instant of `(y, m0 + 1, d)` plus `time` milliseconds, every field allowed out of range
   * (ECMA-262 MakeDay, MakeDate); no two-digit-year rule.
   */
  function MakeInstant(y: int, m0: int, d: int, time: int): (r: Instant)
    ensures TimeValue(r) == DayNumber(y + MonthSplit(m0).0, MonthSplit(m0).1, d) * MsPerDay + time
  {
    var ym := MonthSplit(m0);
    var carry := DaySplit(time).0;
    var rem := DaySplit(time).1;
    var c := NormDay(y + ym.0, ym.1, d + carry);
    var h := rem / 3600000;
    var r1 := rem % 3600000;
    var mi := r1 / 60000;
    var r2 := r1 % 60000;
    var r := DateTime(c.0, c.1, c.2, h, mi, r2 / 1000, r2 % 1000);
    assert rem == h * 3600000 + mi * 60000 + (r2 / 1000) * 1000 + r2 % 1000;
    assert time == carry * MsPerDay + rem;
    r
  }

  /** `new Date(y, m0, d, h, mi, s, ms)` in the local zone, and `Date.UTC(y, m0, d, h, mi, s, ms)`. */
  function FromFields(y: int, m0: int, d: int, h: int, mi: int, s: int, ms: int): (r: Instant)
    ensures TimeValue(r) ==
      DayNumber(FullYear(y) + MonthSplit(m0).0, MonthSplit(m0).1, d) * MsPerDay + h * 3600000 + mi * 60000 + s * 1000 + ms
  {
    MakeInstant(FullYear(y), m0, d, h * 3600000 + mi * 60000 + s * 1000 + ms)
  }

  // ---- Order and identity of days ----

  /** A later year starts at least a year later. */
  lemma {:induction false} YearStartsIncrease(y1: int, y2: int)
    requires y1 < y2
    ensures DaysBeforeYear(y1) + YearLength(y1) <= DaysBeforeYear(y2)
    decreases y2 - y1
  {
    NextYearStart(y1);
    if y1 + 1 < y2 {
      YearStartsIncrease(y1 + 1, y2);
      NextYearStart(y1 + 1);
    }
  }

  /** A day of year `y` lies between the start of `y` and the start of `y + 1`. */
  lemma DayWithinYear(y: int, m: int, d: int)
    requires 1 <= m <= 12 && 1 <= d <= DaysInMonth(y, m)
    ensures DaysBeforeYear(y) <= DayNumber(y, m, d) < DaysBeforeYear(y) + YearLength(y)
  {
  }

  /** Distinct in-range dates are distinct days. */
  lemma DayNumberInjective(y1: int, m1: int, d1: int, y2: int, m2: int, d2: int)
    requires 1 <= m1 <= 12 && 1 <= d1 <= DaysInMonth(y1, m1)
    requires 1 <= m2 <= 12 && 1 <= d2 <= DaysInMonth(y2, m2)
    requires DayNumber(y1, m1, d1) == DayNumber(y2, m2, d2)
    ensures y1 == y2 && m1 == m2 && d1 == d2
  {
    DayWithinYear(y1, m1, d1);
    DayWithinYear(y2, m2, d2);
    if y1 < y2 {
      YearStartsIncrease(y1, y2);
    } else if y2 < y1 {
      YearStartsIncrease(y2, y1);
    }
    assert y1 == y2;
  }

  /** A time value splits into its day and its time of day. */
  lemma SplitTimeValue(t: Instant)
    ensures TimeValue(t) / MsPerDay == EpochDay(t) && TimeValue(t) % MsPerDay == MsOfDay(t)
  {
  }

  /** The time value identifies the instant. */
  lemma TimeValueInjective(a: Instant, b: Instant)
    requires TimeValue(a) == TimeValue(b)
    ensures a == b
  {
    SplitTimeValue(a);
    SplitTimeValue(b);
    DayNumberInjective(a.year, a.month, a.day, b.year, b.month, b.day);
  }

  /** An instant is determined by its calendar day and its time of day. */
  lemma SameDayAndTime(a: Instant, b: Instant)
    requires EpochDay(a) == EpochDay(b) && MsOfDay(a) == MsOfDay(b)
    ensures a == b
  {
    TimeValueInjective(a, b);
  }

  /** The same month and day in a later year is a later day. */
  lemma {:induction false} LaterYearLaterDay(y1: int, y2: int, m: int, d: int)
    requires 1 <= m <= 12 && y1 < y2
    ensures DayNumber(y1, m, d) < DayNumber(y2, m, d)
    decreases y2 - y1
  {
    NextYearStart(y1);
    if y1 + 1 < y2 {
      LaterYearLaterDay(y1 + 1, y2, m, d);
    }
  }

  /** Every instant of an earlier year comes before every instant of a later one. */
  lemma EarlierYearEarlier(a: Instant, b: Instant)
    requires a.year < b.year
    ensures TimeValue(a) < TimeValue(b)
  {
    DayWithinYear(a.year, a.month, a.day);
    DayWithinYear(b.year, b.month, b.day);
    YearStartsIncrease(a.year, b.year);
  }

  /** Time order implies year order. */
  lemma YearOfOrder(a: Instant, b: Instant)
    requires TimeValue(a) <= TimeValue(b)
    ensures a.year <= b.year
  {
    if b.year < a.year {
      EarlierYearEarlier(b, a);
    }
  }

  /** Setting the year an instant already has changes nothing. */
  lemma SetFullYearSame(t: Instant)
    ensures SetFullYear(t, t.year) == t
  {
    SameDayAndTime(SetFullYear(t, t.year), t);
  }

  /** An instant whose day falls within year `y` is in year `y`. */
  lemma YearOfEpochDay(r: Instant, y: int)
    requires DaysBeforeYear(y) <= EpochDay(r) < DaysBeforeYear(y) + YearLength(y)
    ensures r.year == y
  {
    DayWithinYear(r.year, r.month, r.day);
    if r.year < y {
      YearStartsIncrease(r.year, y);
    } else if r.year > y {
      YearStartsIncrease(y, r.year);
    }
  }

  /** Any day that exists in some year (29 February included) numbers within the year `y`. */
  lemma DayWithinAnyYear(y: int, m: int, d: int)
    requires 1 <= m <= 12 && 1 <= d && (if m == 2 then d <= 29 else d <= DaysInMonth(y, m))
    ensures DaysBeforeYear(y) <= DayNumber(y, m, d) < DaysBeforeYear(y) + YearLength(y)
  {
  }
}
