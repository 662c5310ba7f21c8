/**
 * When an alarm fires next (Alarm.getNextAlarmTime) and when it last fired
 * (Alarm.getPreviousAlarmTime), stated on day numbers and minutes of the day.
 *
 * A one-shot alarm (no weekday set) fires on its stored date at its hour and minute;
 * if that instant is not after "now" it moves one day on, once. A repeating alarm
 * starts today at its hour and minute, moves to tomorrow when that is not after "now",
 * and then on to the first day of the week that is in its set.
 */
module AlarmSchedule {
  import opened Common
  import opened Calendar
  import opened Weekdays

  /** Minutes since midnight of hour:minute. */
  function MinuteOfDay(hour: int, minute: int): int
  {
    hour * 60 + minute
  }

  /**
   * The test getNextAlarmTime makes on today's candidate (today at the alarm's hour and
   * minute, with now's seconds and milliseconds) is a comparison of minutes of the day:
   * the candidate is at or before now exactly when the alarm's minute is.
   */
  lemma CandidateNotAfterNow(hour: int, minute: int, now: DateTime)
    requires Valid(now)
    ensures Millis(DateTime(now.date, hour, minute, now.second, now.milli)) <= Millis(now)
        <==> MinuteOfDay(hour, minute) <= MinuteOfDay(now.hour, now.minute)
  {
    var d := MinuteOfDay(hour, minute) - MinuteOfDay(now.hour, now.minute);
    assert Millis(DateTime(now.date, hour, minute, now.second, now.milli)) - Millis(now) == d * MILLIS_PER_MINUTE;
  }

  // ---------------------------------------------------------------------------
  // Repeating alarms

  /** The day the search for a repeating alarm starts on: 0 (today) or 1 (tomorrow). */
  function StartDay(hour: int, minute: int, now: DateTime): (k: int)
    ensures k == 1 <==> MinuteOfDay(hour, minute) <= MinuteOfDay(now.hour, now.minute)
    ensures k == 0 || k == 1
  {
    if MinuteOfDay(hour, minute) <= MinuteOfDay(now.hour, now.minute) then 1 else 0
  }

  /** The day number the search starts from: today, or tomorrow when today's candidate is not after now. */
  function SearchStart(hour: int, minute: int, now: DateTime): int
  {
    DayNumber(now.date) + StartDay(hour, minute, now)
  }

  /** The day number a repeating alarm fires on next: the first day from SearchStart whose weekday is set. */
  function NextRepeatingDay(w: Weekdays, hour: int, minute: int, now: DateTime): int
    requires IsRepeating(w)
  {
    var first := SearchStart(hour, minute, now);
    first + DistanceToNextDay(w, WeekdayOf(first))
  }

  /**
   * The first steps of the repeating branch of getNextAlarmTime: the Calendar takes
   * now's instant, then the alarm's hour and minute, and moves one day on when that is
   * not after now. It is read normalised.
   */
  function RepeatingCandidate(hour: int, minute: int, now: DateTime): DateTime
  {
    var c := Normalize(now).(hour := hour, minute := minute);
    if Millis(c) <= Millis(now) then AddDays(c, 1) else Normalize(c)
  }

  /**
   * The repeating branch of getNextAlarmTime: from RepeatingCandidate, on by the
   * distance to the next set weekday, then hour and minute set again.
   */
  function NextRepeating(w: Weekdays, hour: int, minute: int, now: DateTime): DateTime
    requires IsRepeating(w)
  {
    var c1 := RepeatingCandidate(hour, minute, now);
    var add := DistanceToNextDay(w, DayOfWeek(c1.date));
    var c2 := if add > 0 then AddDays(c1, add) else c1;
    Normalize(c2.(hour := hour, minute := minute))
  }

  /** The same firing on the day-number view: day NextRepeatingDay at hour:minute, with now's seconds and milliseconds. */
  function RepeatingFiring(w: Weekdays, hour: int, minute: int, now: DateTime): DateTime
    requires IsRepeating(w)
  {
    DateTime(DateOf(NextRepeatingDay(w, hour, minute, now)), hour, minute, now.second, now.milli)
  }

  /** For an hour and minute on the clock face, the candidate is on day SearchStart, keeping now's seconds. */
  lemma RepeatingCandidateOnDay(hour: int, minute: int, now: DateTime)
    requires Valid(now) && ValidTimeOfDay(hour, minute)
    ensures RepeatingCandidate(hour, minute, now)
         == DateTime(DateOf(SearchStart(hour, minute, now)), hour, minute, now.second, now.milli)
  {
    NormalizeValid(now);
    var c := now.(hour := hour, minute := minute);
    CandidateNotAfterNow(hour, minute, now);
    if Millis(c) <= Millis(now) {
      AddDaysIs(c, 1);
    } else {
      NormalizeValid(c);
      DateOfDayNumber(now.date);
    }
  }

  /** Equal day numbers name the same date. */
  lemma SameDay(m: int, n: int)
    requires m == n
    ensures DateOf(m) == DateOf(n)
  {
  }

  /** For an hour and minute on the clock face, the Calendar steps land on RepeatingFiring. */
  lemma NextRepeatingOnDay(w: Weekdays, hour: int, minute: int, now: DateTime)
    requires Valid(now) && ValidTimeOfDay(hour, minute) && IsRepeating(w)
    ensures NextRepeating(w, hour, minute, now) == RepeatingFiring(w, hour, minute, now)
  {
    var c1 := RepeatingCandidate(hour, minute, now);
    var first := SearchStart(hour, minute, now);
    RepeatingCandidateOnDay(hour, minute, now);
    assert DayOfWeek(c1.date) == WeekdayOf(first);
    var add := DistanceToNextDay(w, WeekdayOf(first));
    var found := NextRepeatingDay(w, hour, minute, now);
    assert found == first + add;
    var r := RepeatingFiring(w, hour, minute, now);
    NormalizeValid(r);
    if add > 0 {
      AddDaysIs(c1, add);
      SameDay(DayNumber(c1.date) + add, found);
      assert AddDays(c1, add).(hour := hour, minute := minute) == r;
    } else {
      SameDay(first, found);
      assert c1.(hour := hour, minute := minute) == r;
    }
  }

  /** The instant difference of two date-times splits into whole days and time of day. */
  lemma MillisDifference(a: DateTime, b: DateTime)
    ensures Millis(a) - Millis(b) == (DayNumber(a.date) - DayNumber(b.date)) * MILLIS_PER_DAY
      + (MinuteOfDay(a.hour, a.minute) - MinuteOfDay(b.hour, b.minute)) * MILLIS_PER_MINUTE
      + (a.second - b.second) * MILLIS_PER_SECOND + (a.milli - b.milli)
  {
  }

  /**
   * The day NextRepeatingDay picks is at most six days from the start of the search,
   * its weekday is in the set, and no day from the start of the search up to it is.
   */
  lemma NextRepeatingDayIsFirstSet(w: Weekdays, hour: int, minute: int, now: DateTime)
    requires IsRepeating(w)
    ensures var first, found := SearchStart(hour, minute, now), NextRepeatingDay(w, hour, minute, now);
      && first <= found <= first + 6
      && IsBitOn(w, WeekdayOf(found))
      && forall n :: first <= n < found ==> !IsBitOn(w, WeekdayOf(n))
  {
    NextSetDay(w, SearchStart(hour, minute, now), NextRepeatingDay(w, hour, minute, now));
  }

  /**
   * Any instant at the alarm's hour and minute on the day NextRepeatingDay picks, whose
   * seconds do not pass now's, is strictly after now, at most a week ahead, and on a
   * day of the week in the set.
   */
  lemma FiringDayIsAhead(w: Weekdays, hour: int, minute: int, now: DateTime, r: DateTime)
    requires Valid(now) && ValidTimeOfDay(hour, minute) && IsRepeating(w)
    requires r.date == DateOf(NextRepeatingDay(w, hour, minute, now))
    requires r.hour == hour && r.minute == minute
    requires 0 <= r.second < 60 && 0 <= r.milli < 1000
    requires r.second * MILLIS_PER_SECOND + r.milli <= now.second * MILLIS_PER_SECOND + now.milli
    ensures Valid(r) && Millis(now) < Millis(r) <= Millis(now) + 7 * MILLIS_PER_DAY
    ensures IsBitOn(w, DayOfWeek(r.date))
  {
    MillisDifference(r, now);
    NextRepeatingDayIsFirstSet(w, hour, minute, now);
  }

  /**
   * A repeating alarm fires strictly after now, at its own hour and minute, on a day
   * of the week in its set, and at most a week ahead.
   */
  lemma NextRepeatingIsAhead(w: Weekdays, hour: int, minute: int, now: DateTime)
    requires Valid(now) && ValidTimeOfDay(hour, minute) && IsRepeating(w)
    ensures var r := NextRepeating(w, hour, minute, now);
      && Valid(r) && r.hour == hour && r.minute == minute
      && Millis(now) < Millis(r) <= Millis(now) + 7 * MILLIS_PER_DAY
      && IsBitOn(w, DayOfWeek(r.date))
  {
    NextRepeatingOnDay(w, hour, minute, now);
    FiringDayIsAhead(w, hour, minute, now, RepeatingFiring(w, hour, minute, now));
  }

  /**
   * No day before the one NextRepeating picks offers a firing: any instant at the
   * alarm's hour and minute (seconds zero) that is after now, on a day in the set, is
   * on that day or later.
   */
  lemma NextRepeatingIsFirst(w: Weekdays, hour: int, minute: int, now: DateTime, t: DateTime)
    requires Valid(now) && ValidTimeOfDay(hour, minute) && IsRepeating(w)
    requires Valid(t) && t.hour == hour && t.minute == minute && t.second == 0 && t.milli == 0
    requires IsBitOn(w, DayOfWeek(t.date)) && Millis(now) < Millis(t)
    ensures DayNumber(NextRepeating(w, hour, minute, now).date) <= DayNumber(t.date)
  {
    NextRepeatingOnDay(w, hour, minute, now);
    FiringDayIsNotBefore(w, hour, minute, now, t);
  }

  /** The firing day search skips no eligible day: the core of NextRepeatingIsFirst. */
  lemma FiringDayIsNotBefore(w: Weekdays, hour: int, minute: int, now: DateTime, t: DateTime)
    requires Valid(now) && ValidTimeOfDay(hour, minute) && IsRepeating(w)
    requires Valid(t) && t.hour == hour && t.minute == minute && t.second == 0 && t.milli == 0
    requires IsBitOn(w, DayOfWeek(t.date)) && Millis(now) < Millis(t)
    ensures NextRepeatingDay(w, hour, minute, now) <= DayNumber(t.date)
  {
    MillisDifference(t, now);
    NextRepeatingDayIsFirstSet(w, hour, minute, now);
  }

  /**
   * As written, the repeating result carries now's seconds and milliseconds: the
   * Calendar's seconds are cleared before setTimeInMillis(now) overwrites them.
   */
  lemma NextRepeatingKeepsNowSeconds()
    ensures var now := DateTime(Date(2024, 0, 1), 8, 0, 30, 500);
      NextRepeating(ALL, 9, 0, now).second == 30
  {
    NextRepeatingOnDay(ALL, 9, 0, DateTime(Date(2024, 0, 1), 8, 0, 30, 500));
  }

  /** The evidently intended repeating result: the same day and minute, seconds and milliseconds zero. */
  function NextRepeatingZeroed(w: Weekdays, hour: int, minute: int, now: DateTime): (r: DateTime)
    requires IsRepeating(w)
    ensures r.second == 0 && r.milli == 0
  {
    NextRepeating(w, hour, minute, now).(second := 0, milli := 0)
  }

  /** The corrected result is still strictly after now, on a day in the set, at most a week ahead. */
  lemma NextRepeatingZeroedIsAhead(w: Weekdays, hour: int, minute: int, now: DateTime)
    requires Valid(now) && ValidTimeOfDay(hour, minute) && IsRepeating(w)
    ensures var r := NextRepeatingZeroed(w, hour, minute, now);
      && Valid(r) && Millis(now) < Millis(r) <= Millis(now) + 7 * MILLIS_PER_DAY
      && IsBitOn(w, DayOfWeek(r.date))
  {
    NextRepeatingOnDay(w, hour, minute, now);
    var f := RepeatingFiring(w, hour, minute, now);
    FiringDayIsAhead(w, hour, minute, now, f.(second := 0, milli := 0));
  }

  // ---------------------------------------------------------------------------
  // One-shot alarms

  /** The stored date at hour:minute with seconds and milliseconds cleared, as a Calendar reads it. */
  function OneShotBase(date: Date, hour: int, minute: int): DateTime
  {
    Normalize(DateTime(date, hour, minute, 0, 0))
  }

  /** The next firing of a one-shot alarm: its base, or one day later when the base is not after now. */
  function NextOneShot(date: Date, hour: int, minute: int, now: DateTime): DateTime
  {
    var base := OneShotBase(date, hour, minute);
    if Millis(base) <= Millis(now) then AddDays(base, 1) else base
  }

  /**
   * A valid stored date and time is the base itself. The base moves exactly one day,
   * and only when it is not after now; so a one-shot alarm whose base is a day or more
   * before now still yields an instant at or before now.
   */
  lemma OneShotMovesAtMostOnce(date: Date, hour: int, minute: int, now: DateTime)
    ensures var base, r := OneShotBase(date, hour, minute), NextOneShot(date, hour, minute, now);
      && Valid(r)
      && (ValidDate(date) && ValidTimeOfDay(hour, minute) ==> base == DateTime(date, hour, minute, 0, 0))
      && (Millis(base) > Millis(now) ==> r == base)
      && (Millis(base) <= Millis(now) ==>
            DayNumber(r.date) == DayNumber(base.date) + 1 && r.hour == base.hour && r.minute == base.minute)
      && Millis(r) - Millis(base) <= MILLIS_PER_DAY
      && (Millis(base) + MILLIS_PER_DAY <= Millis(now) ==> Millis(r) <= Millis(now))
  {
    var base := OneShotBase(date, hour, minute);
    if ValidDate(date) && ValidTimeOfDay(hour, minute) {
      NormalizeValid(DateTime(date, hour, minute, 0, 0));
    }
    AddDaysKeepsTime(base, 1);
  }

  // ---------------------------------------------------------------------------
  // The previous firing

  /**
   * The previous firing of a repeating alarm as getPreviousAlarmTime computes it:
   * DistanceToPreviousDay days before the stored date, at the same time; none for a
   * one-shot alarm.
   */
  function PreviousFiring(w: Weekdays, date: Date, hour: int, minute: int): Option<DateTime>
  {
    PreviousFiringFrom(w, OneShotBase(date, hour, minute))
  }

  /** The step of getPreviousAlarmTime after the Calendar holds the stored date and time. */
  function PreviousFiringFrom(w: Weekdays, base: DateTime): Option<DateTime>
  {
    var sub := DistanceToPreviousDay(w, DayOfWeek(base.date));
    if sub > 0 then Some(AddDays(base, -sub)) else None
  }

  /** The day number of the nearest day before `date` whose weekday is in the set. */
  function PreviousSetDayBefore(w: Weekdays, date: Date): int
    requires IsRepeating(w)
  {
    DayNumber(date) - DistanceToPreviousDay(w, WeekdayOf(DayNumber(date)))
  }

  /** PreviousSetDayBefore is one to seven days back, in the set, and no day after it and before `date` is. */
  lemma PreviousSetDayBeforeIsNearest(w: Weekdays, date: Date)
    requires IsRepeating(w)
    ensures var found := PreviousSetDayBefore(w, date);
      && DayNumber(date) - 7 <= found < DayNumber(date)
      && IsBitOn(w, WeekdayOf(found))
      && forall n :: found < n < DayNumber(date) ==> !IsBitOn(w, WeekdayOf(n))
  {
    PreviousSetDay(w, DayNumber(date), PreviousSetDayBefore(w, date));
  }

  /** From a valid Calendar, the previous firing is on PreviousSetDayBefore, at the same time of day. */
  lemma PreviousFiringFromIs(w: Weekdays, base: DateTime)
    requires Valid(base)
    ensures PreviousFiringFrom(w, base).None? <==> !IsRepeating(w)
    ensures IsRepeating(w) ==>
      PreviousFiringFrom(w, base) == Some(DateTime(DateOf(PreviousSetDayBefore(w, base.date)), base.hour, base.minute, base.second, base.milli))
  {
    if IsRepeating(w) {
      AddDaysIs(base, PreviousSetDayBefore(w, base.date) - DayNumber(base.date));
    }
  }

  /**
   * For a repeating alarm the previous firing is at the stored hour and minute on
   * PreviousSetDayBefore the stored date; a one-shot alarm has none.
   */
  lemma PreviousFiringIsNearest(w: Weekdays, date: Date, hour: int, minute: int)
    requires ValidDate(date) && ValidTimeOfDay(hour, minute)
    ensures PreviousFiring(w, date, hour, minute).None? <==> !IsRepeating(w)
    ensures IsRepeating(w) ==>
      PreviousFiring(w, date, hour, minute) == Some(DateTime(DateOf(PreviousSetDayBefore(w, date)), hour, minute, 0, 0))
  {
    NormalizeValid(DateTime(date, hour, minute, 0, 0));
    PreviousFiringFromIs(w, DateTime(date, hour, minute, 0, 0));
  }
}
