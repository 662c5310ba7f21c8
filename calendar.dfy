/**
 * The part of java.util.Calendar that the alarm code relies on: a proleptic Gregorian
 * calendar in one fixed time zone without daylight saving. A `DateTime` holds the fields
 * Calendar.get returns (month 0-based, hour of day 0..23); `Millis` is the instant they
 * denote, counted from 0000-01-01T00:00 and computed leniently (a month, day, hour or
 * minute out of range carries into the next larger field, as a lenient GregorianCalendar
 * does); `FromMillis` normalises an instant back into fields.
 */
module Calendar {

  const MILLIS_PER_SECOND := 1000
  const MILLIS_PER_MINUTE := 60_000
  const MILLIS_PER_HOUR := 3_600_000
  const MILLIS_PER_DAY := 86_400_000

  /** Calendar.SUNDAY .. Calendar.SATURDAY */
  const SUNDAY := 1
  const SATURDAY := 7

  datatype Date = Date(year: int, month: int, day: int)

  datatype DateTime = DateTime(date: Date, hour: int, minute: int, second: int, milli: int)

  predicate IsLeap(y: int)
  {
    y % 4 == 0 && (y % 100 != 0 || y % 400 == 0)
  }

  function YearLength(y: int): int
  {
    if IsLeap(y) then 366 else 365
  }

  function DaysInMonth(y: int, m: int): int
    requires 0 <= m < 12
  {
    if m == 1 then (if IsLeap(y) then 29 else 28)
    else if m == 3 || m == 5 || m == 8 || m == 10 then 30
    else 31
  }

  /** Days from 1 January of year y to the first day of month m. */
  function DaysBeforeMonth(y: int, m: int): int
    requires 0 <= m < 12
  {
    [0, 31, 59, 90, 120, 151, 181, 212, 243, 273, 304, 334][m] + (if m >= 2 && IsLeap(y) then 1 else 0)
  }

  /** Days from 0000-01-01 to 1 January of year y (negative before year 0). */
  function DaysBeforeYear(y: int): int
    decreases if y < 0 then -y else y
  {
    if y == 0 then 0
    else if y > 0 then DaysBeforeYear(y - 1) + YearLength(y - 1)
    else DaysBeforeYear(y + 1) - YearLength(y)
  }

  predicate ValidDate(d: Date)
  {
    0 <= d.month < 12 && 1 <= d.day <= DaysInMonth(d.year, d.month)
  }

  predicate ValidTimeOfDay(hour: int, minute: int)
  {
    0 <= hour < 24 && 0 <= minute < 60
  }

  /** The fields of a normalised Calendar. */
  predicate Valid(t: DateTime)
  {
    ValidDate(t.date) && ValidTimeOfDay(t.hour, t.minute) &&
    0 <= t.second < 60 && 0 <= t.milli < 1000
  }

  /**
   * Days from 0000-01-01 to the first day of month m of year y; a month outside
   * 0..11 carries into the year, as Calendar.set(MONTH, m) does when lenient.
   */
  function MonthStart(y: int, m: int): int
    decreases if m < 0 then 12 - m else m
  {
    if m < 0 then MonthStart(y - 1, m + 12)
    else if m >= 12 then MonthStart(y + 1, m - 12)
    else DaysBeforeYear(y) + DaysBeforeMonth(y, m)
  }

  /** Day number of a date, 0000-01-01 being day 0; lenient in month and day. */
  function DayNumber(d: Date): int
  {
    MonthStart(d.year, d.month) + d.day - 1
  }

  function TimeOfDayMillis(t: DateTime): int
  {
    t.hour * MILLIS_PER_HOUR + t.minute * MILLIS_PER_MINUTE + t.second * MILLIS_PER_SECOND + t.milli
  }

  /** Calendar.getTimeInMillis, up to the choice of origin. */
  function Millis(t: DateTime): int
  {
    DayNumber(t.date) * MILLIS_PER_DAY + TimeOfDayMillis(t)
  }

  /** The Calendar.DAY_OF_WEEK (SUNDAY = 1 .. SATURDAY = 7) of day number n; 0000-01-01 was a Saturday. */
  function WeekdayOf(n: int): (r: int)
    ensures SUNDAY <= r <= SATURDAY
  {
    1 + (n + 6) % 7
  }

  /** Calendar.get(DAY_OF_WEEK) of a date. */
  function DayOfWeek(d: Date): (r: int)
    ensures SUNDAY <= r <= SATURDAY
  {
    WeekdayOf(DayNumber(d))
  }

  // ---------------------------------------------------------------------------
  // Stepping one day

  /** Consecutive years are YearLength(y) days apart. */
  lemma YearStep(y: int)
    ensures DaysBeforeYear(y + 1) == DaysBeforeYear(y) + YearLength(y)
  {
    if y < 0 {
      assert DaysBeforeYear(y) == DaysBeforeYear(y + 1) - YearLength(y);
    }
  }

  /** For an in-range month, DayNumber needs no carry. */
  lemma DayNumberInRange(d: Date)
    requires 0 <= d.month < 12
    ensures DayNumber(d) == DaysBeforeYear(d.year) + DaysBeforeMonth(d.year, d.month) + d.day - 1
  {
  }

  lemma StepInMonth(d: Date)
    requires ValidDate(d) && d.day < DaysInMonth(d.year, d.month)
    ensures DayNumber(Date(d.year, d.month, d.day + 1)) == DayNumber(d) + 1
  {
    DayNumberInRange(d);
    DayNumberInRange(Date(d.year, d.month, d.day + 1));
  }

  lemma StepMonthEnd(y: int, m: int)
    requires 0 <= m < 11
    ensures DayNumber(Date(y, m + 1, 1)) == DayNumber(Date(y, m, DaysInMonth(y, m))) + 1
  {
    DayNumberInRange(Date(y, m + 1, 1));
    DayNumberInRange(Date(y, m, DaysInMonth(y, m)));
  }

  lemma StepYearEnd(y: int)
    ensures DayNumber(Date(y + 1, 0, 1)) == DayNumber(Date(y, 11, 31)) + 1
  {
    YearStep(y);
    DayNumberInRange(Date(y + 1, 0, 1));
    DayNumberInRange(Date(y, 11, 31));
    LastMonthEndsYear(y);
  }

  lemma LastMonthEndsYear(y: int)
    ensures DaysBeforeMonth(y, 11) + DaysInMonth(y, 11) == YearLength(y)
  {
  }

  /** The day after d: Calendar.add(DAY_OF_YEAR, 1) on the date fields. */
  function NextDate(d: Date): (r: Date)
    requires ValidDate(d)
    ensures ValidDate(r) && DayNumber(r) == DayNumber(d) + 1
  {
    if d.day < DaysInMonth(d.year, d.month) then
      StepInMonth(d);
      Date(d.year, d.month, d.day + 1)
    else if d.month < 11 then
      StepMonthEnd(d.year, d.month);
      Date(d.year, d.month + 1, 1)
    else
      StepYearEnd(d.year);
      Date(d.year + 1, 0, 1)
  }

  /** The day before d. */
  function PrevDate(d: Date): (r: Date)
    requires ValidDate(d)
    ensures ValidDate(r) && DayNumber(r) == DayNumber(d) - 1
  {
    if d.day > 1 then
      StepInMonth(Date(d.year, d.month, d.day - 1));
      Date(d.year, d.month, d.day - 1)
    else if d.month > 0 then
      StepMonthEnd(d.year, d.month - 1);
      Date(d.year, d.month - 1, DaysInMonth(d.year, d.month - 1))
    else
      StepYearEnd(d.year - 1);
      Date(d.year - 1, 11, 31)
  }

  /** The date k days after (k < 0: before) d, reached one day at a time. */
  function DateFrom(d: Date, k: int): (r: Date)
    requires ValidDate(d)
    ensures ValidDate(r) && DayNumber(r) == DayNumber(d) + k
    decreases if k < 0 then -k else k
  {
    if k == 0 then d
    else if k > 0 then DateFrom(NextDate(d), k - 1)
    else DateFrom(PrevDate(d), k + 1)
  }

  /** The valid date with day number n. */
  function DateOf(n: int): (r: Date)
    ensures ValidDate(r) && DayNumber(r) == n
  {
    DayNumberInRange(Date(0, 0, 1));
    DateFrom(Date(0, 0, 1), n)
  }

  lemma DaySplit(ms: int)
    ensures ms == ms / MILLIS_PER_DAY * MILLIS_PER_DAY + ms % MILLIS_PER_DAY
    ensures 0 <= ms % MILLIS_PER_DAY < MILLIS_PER_DAY
  {
  }

  lemma TimeSplit(rem: int)
    requires 0 <= rem < MILLIS_PER_DAY
    ensures ValidTimeOfDay(rem / MILLIS_PER_HOUR, rem % MILLIS_PER_HOUR / MILLIS_PER_MINUTE)
    ensures 0 <= rem % MILLIS_PER_MINUTE / MILLIS_PER_SECOND < 60
    ensures rem / MILLIS_PER_HOUR * MILLIS_PER_HOUR + rem % MILLIS_PER_HOUR / MILLIS_PER_MINUTE * MILLIS_PER_MINUTE
            + rem % MILLIS_PER_MINUTE / MILLIS_PER_SECOND * MILLIS_PER_SECOND + rem % MILLIS_PER_SECOND == rem
  {
    var h, a := rem / MILLIS_PER_HOUR, rem % MILLIS_PER_HOUR;
    var m, b := a / MILLIS_PER_MINUTE, a % MILLIS_PER_MINUTE;
    assert b == rem % MILLIS_PER_MINUTE by {
      assert rem == h * 60 * MILLIS_PER_MINUTE + m * MILLIS_PER_MINUTE + b;
    }
    var s, c := b / MILLIS_PER_SECOND, b % MILLIS_PER_SECOND;
    assert c == rem % MILLIS_PER_SECOND by {
      assert rem == (h * 3600 + m * 60) * MILLIS_PER_SECOND + s * MILLIS_PER_SECOND + c;
    }
  }

  /** Normalises an instant into Calendar fields. */
  function FromMillis(ms: int): (r: DateTime)
    ensures Valid(r) && Millis(r) == ms
  {
    DaySplit(ms);
    var rem := ms % MILLIS_PER_DAY;
    TimeSplit(rem);
    DateTime(DateOf(ms / MILLIS_PER_DAY), rem / MILLIS_PER_HOUR, rem % MILLIS_PER_HOUR / MILLIS_PER_MINUTE,
             rem % MILLIS_PER_MINUTE / MILLIS_PER_SECOND, rem % MILLIS_PER_SECOND)
  }

  /** The fields of a java.util.Calendar: normalised, with a year that fits a Java `int`. */
  predicate IsCalendar(t: DateTime)
  {
    Valid(t) && -0x8000_0000 <= t.date.year < 0x8000_0000
  }

  /** A Calendar whose fields were set (possibly out of range) and then read back. */
  function Normalize(t: DateTime): DateTime
  {
    FromMillis(Millis(t))
  }

  /** Calendar.add(MILLISECOND, delta), and every other add on a zone without DST. */
  function AddMillis(t: DateTime, delta: int): DateTime
  {
    FromMillis(Millis(t) + delta)
  }

  /** Calendar.add(DAY_OF_YEAR, n) (also DAY_OF_WEEK, which adds days the same way). */
  function AddDays(t: DateTime, n: int): DateTime
  {
    AddMillis(t, n * MILLIS_PER_DAY)
  }

  // ---------------------------------------------------------------------------
  // Order and uniqueness

  /** Lexicographic order of (year, month, day). */
  predicate DateBefore(a: Date, b: Date)
  {
    a.year < b.year || (a.year == b.year && (a.month < b.month || (a.month == b.month && a.day < b.day)))
  }

  lemma {:induction false} YearsOrdered(y1: int, y2: int)
    requires y1 < y2
    ensures DaysBeforeYear(y1) + YearLength(y1) <= DaysBeforeYear(y2)
    decreases y2 - y1
  {
    YearStep(y1);
    if y1 + 1 < y2 {
      YearsOrdered(y1 + 1, y2);
      YearStep(y1 + 1);
    }
  }

  lemma MonthsOrdered(y: int, m1: int, m2: int)
    requires 0 <= m1 < m2 < 12
    ensures DaysBeforeMonth(y, m1) + DaysInMonth(y, m1) <= DaysBeforeMonth(y, m2)
  {
  }

  /** Every day of a valid date falls inside its year. */
  lemma DayWithinYear(d: Date)
    requires ValidDate(d)
    ensures DaysBeforeYear(d.year) <= DayNumber(d) < DaysBeforeYear(d.year) + YearLength(d.year)
  {
    DayNumberInRange(d);
    if d.month < 11 {
      MonthsOrdered(d.year, d.month, 11);
    }
  }

  /** Every day of a valid date falls inside its month. */
  lemma DayWithinMonth(d: Date)
    requires ValidDate(d)
    ensures DaysBeforeYear(d.year) + DaysBeforeMonth(d.year, d.month) <= DayNumber(d)
    ensures DayNumber(d) < DaysBeforeYear(d.year) + DaysBeforeMonth(d.year, d.month) + DaysInMonth(d.year, d.month)
  {
    DayNumberInRange(d);
  }

  /** For valid dates, calendar order is day-number order. */
  lemma DayNumberMonotone(a: Date, b: Date)
    requires ValidDate(a) && ValidDate(b)
    ensures DateBefore(a, b) <==> DayNumber(a) < DayNumber(b)
  {
    DayWithinYear(a);
    DayWithinYear(b);
    if a.year < b.year {
      YearsOrdered(a.year, b.year);
    } else if b.year < a.year {
      YearsOrdered(b.year, a.year);
    } else {
      DayWithinMonth(a);
      DayWithinMonth(b);
      if a.month < b.month {
        MonthsOrdered(a.year, a.month, b.month);
      } else if b.month < a.month {
        MonthsOrdered(a.year, b.month, a.month);
      }
    }
  }

  lemma DayNumberInjective(a: Date, b: Date)
    requires ValidDate(a) && ValidDate(b) && DayNumber(a) == DayNumber(b)
    ensures a == b
  {
    DayNumberMonotone(a, b);
    DayNumberMonotone(b, a);
  }

  lemma TimeOfDayUnique(s: DateTime, t: DateTime)
    requires Valid(s) && Valid(t) && TimeOfDayMillis(s) == TimeOfDayMillis(t)
    ensures s.hour == t.hour && s.minute == t.minute && s.second == t.second && s.milli == t.milli
  {
  }

  /** Two normalised Calendars denote the same instant only if all their fields agree. */
  lemma MillisInjective(s: DateTime, t: DateTime)
    requires Valid(s) && Valid(t) && Millis(s) == Millis(t)
    ensures s == t
  {
    var a, b := DayNumber(s.date), DayNumber(t.date);
    assert a == b;
    DayNumberInjective(s.date, t.date);
    TimeOfDayUnique(s, t);
  }

  /** Reading back the fields of a normalised Calendar gives the same fields. */
  lemma NormalizeValid(t: DateTime)
    requires Valid(t)
    ensures Normalize(t) == t
  {
    MillisInjective(Normalize(t), t);
  }

  /** Adding whole days moves the date by that many days and keeps the time of day. */
  lemma AddDaysKeepsTime(t: DateTime, n: int)
    requires Valid(t)
    ensures var r := AddDays(t, n);
      DayNumber(r.date) == DayNumber(t.date) + n &&
      r.hour == t.hour && r.minute == t.minute && r.second == t.second && r.milli == t.milli
  {
    var u := DateTime(DateOf(DayNumber(t.date) + n), t.hour, t.minute, t.second, t.milli);
    assert Millis(u) == Millis(t) + n * MILLIS_PER_DAY;
    MillisInjective(AddDays(t, n), u);
  }

  /** The same, as the explicit result: the date k days on, at the same time of day. */
  lemma AddDaysIs(t: DateTime, n: int)
    requires Valid(t)
    ensures AddDays(t, n) == DateTime(DateOf(DayNumber(t.date) + n), t.hour, t.minute, t.second, t.milli)
  {
    AddDaysKeepsTime(t, n);
    DayNumberInjective(AddDays(t, n).date, DateOf(DayNumber(t.date) + n));
  }

  /** A valid date is the date of its own day number. */
  lemma DateOfDayNumber(d: Date)
    requires ValidDate(d)
    ensures DateOf(DayNumber(d)) == d
  {
    DayNumberInjective(DateOf(DayNumber(d)), d);
  }

  /** Moving k days moves the day of the week k places round the week. */
  lemma WeekdayShift(n: int, k: int)
    ensures WeekdayOf(n + k) == 1 + (WeekdayOf(n) - 1 + k) % 7
  {
    var q, r := (n + 6) / 7, (n + 6) % 7;
    assert n + 6 == 7 * q + r;
    assert (n + k + 6) % 7 == (r + k) % 7 by {
      assert n + k + 6 == 7 * q + (r + k);
    }
  }
}
