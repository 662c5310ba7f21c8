/**
 * The set of weekdays a repeating alarm fires on. com.best.deskclock.data.Weekdays is
 * not modelled; these definitions are its assumed contract: a 7-bit mask with Monday in bit 0
 * through Sunday in bit 6; the distance to the next set day is 0..6 (0 when the
 * starting day itself is set), the distance to the previous set day is 1..7, and both
 * report -1 for the empty set. Alarm.java relies on exactly this: it adds the next
 * distance only when it is positive and moves back only when the previous distance is.
 */
module Weekdays {
  import opened Calendar

  datatype Weekdays = Weekdays(bits: bv7)

  /** Weekdays.NONE: a one-shot alarm. */
  const NONE := Weekdays(0)

  /** Weekdays.ALL: every day of the week. */
  const ALL := Weekdays(0x7f)

  /** The bit of a Calendar.DAY_OF_WEEK value (SUNDAY = 1 .. SATURDAY = 7). */
  function BitOf(calendarDay: int): bv7
    requires SUNDAY <= calendarDay <= SATURDAY
  {
    [0x40, 0x01, 0x02, 0x04, 0x08, 0x10, 0x20][calendarDay - 1]
  }

  predicate IsBitOn(w: Weekdays, calendarDay: int)
    requires SUNDAY <= calendarDay <= SATURDAY
  {
    w.bits & BitOf(calendarDay) != 0
  }

  predicate IsRepeating(w: Weekdays)
  {
    w.bits != 0
  }

  /** Weekdays.fromBits: keeps the seven weekday bits (Java's `bits & 0x7f`). */
  function FromBits(bits: int): (w: Weekdays)
    ensures 0 <= bits < 128 ==> w.bits as int == bits
  {
    Weekdays((bits % 128) as bv7)
  }

  /** Weekdays.getBits. */
  function GetBits(w: Weekdays): (r: int)
    ensures 0 <= r < 128 && FromBits(r) == w
  {
    w.bits as int
  }

  /** The day k places after calendarDay round the week (k < 0: before). */
  function Rotate(calendarDay: int, k: int): (r: int)
    requires SUNDAY <= calendarDay <= SATURDAY
    ensures SUNDAY <= r <= SATURDAY
  {
    1 + (calendarDay - 1 + k) % 7
  }

  /** The day k places before calendarDay round the week. */
  function RotateBack(calendarDay: int, k: int): (r: int)
    requires SUNDAY <= calendarDay <= SATURDAY
    ensures SUNDAY <= r <= SATURDAY
  {
    1 + (calendarDay - 1 - k) % 7
  }

  /** Rotating by a and then by b is rotating by a + b. */
  lemma RotateTwice(calendarDay: int, a: int, b: int)
    requires SUNDAY <= calendarDay <= SATURDAY
    ensures Rotate(Rotate(calendarDay, a), b) == Rotate(calendarDay, a + b)
  {
    var x := calendarDay - 1 + a;
    var q := x / 7;
    assert x == 7 * q + x % 7;
    assert x % 7 + b == (x + b) - 7 * q;
  }

  /** A set with none of the seven days on is the empty set. */
  lemma NoDayMeansEmpty(w: Weekdays)
    requires forall d :: SUNDAY <= d <= SATURDAY ==> !IsBitOn(w, d)
    ensures w.bits == 0
  {
    assert !IsBitOn(w, 1) && !IsBitOn(w, 2) && !IsBitOn(w, 3) && !IsBitOn(w, 4);
    assert !IsBitOn(w, 5) && !IsBitOn(w, 6) && !IsBitOn(w, 7);
  }

  /** Seven consecutive days starting anywhere cover the whole week. */
  lemma RotationCovers(origin: int, d: int)
    requires SUNDAY <= origin <= SATURDAY && SUNDAY <= d <= SATURDAY
    ensures Rotate(origin, Ahead(origin, d)) == d
    ensures RotateBack(origin, Behind(origin, d)) == d
  {
    assert (d - 1) % 7 == d - 1 && (d - 1 + 7) % 7 == d - 1;
  }

  /** How many days forward from origin d comes (0..6). */
  function Ahead(origin: int, d: int): (k: int)
    requires SUNDAY <= origin <= SATURDAY && SUNDAY <= d <= SATURDAY
    ensures 0 <= k < 7
  {
    if origin <= d then d - origin else d - origin + 7
  }

  /** How many days back from origin d was (1..7). */
  function Behind(origin: int, d: int): (k: int)
    requires SUNDAY <= origin <= SATURDAY && SUNDAY <= d <= SATURDAY
    ensures 1 <= k <= 7
  {
    if d < origin then origin - d else origin - d + 7
  }

  lemma NoNextMeansEmpty(w: Weekdays, origin: int)
    requires SUNDAY <= origin <= SATURDAY
    ensures NextSetFrom(w, origin, 0) == -1 ==> w.bits == 0
  {
    if NextSetFrom(w, origin, 0) == -1 {
      forall d | SUNDAY <= d <= SATURDAY ensures !IsBitOn(w, d) {
        RotationCovers(origin, d);
        assert !IsBitOn(w, Rotate(origin, Ahead(origin, d)));
      }
      NoDayMeansEmpty(w);
    }
  }

  lemma NoPreviousMeansEmpty(w: Weekdays, origin: int)
    requires SUNDAY <= origin <= SATURDAY
    ensures PrevSetFrom(w, origin, 1) == -1 ==> w.bits == 0
  {
    if PrevSetFrom(w, origin, 1) == -1 {
      forall d | SUNDAY <= d <= SATURDAY ensures !IsBitOn(w, d) {
        RotationCovers(origin, d);
        assert !IsBitOn(w, RotateBack(origin, Behind(origin, d)));
      }
      NoDayMeansEmpty(w);
    }
  }

  /** The search loop of getDistanceToNextDay, from its count-th step on. */
  function NextSetFrom(w: Weekdays, origin: int, count: int): (r: int)
    requires SUNDAY <= origin <= SATURDAY && 0 <= count <= 7
    ensures r == -1 ==> forall k :: count <= k < 7 ==> !IsBitOn(w, Rotate(origin, k))
    ensures r != -1 ==> count <= r < 7 && IsBitOn(w, Rotate(origin, r))
    ensures r != -1 ==> forall k :: count <= k < r ==> !IsBitOn(w, Rotate(origin, k))
    decreases 7 - count
  {
    if count == 7 then -1
    else if IsBitOn(w, Rotate(origin, count)) then count
    else NextSetFrom(w, origin, count + 1)
  }

  /**
   * Weekdays.getDistanceToNextDay: how many days forward from calendarDay the first set
   * day is (0 when calendarDay is set), or -1 for the empty set.
   */
  function DistanceToNextDay(w: Weekdays, calendarDay: int): (r: int)
    requires SUNDAY <= calendarDay <= SATURDAY
    ensures r == -1 <==> !IsRepeating(w)
    ensures r != -1 ==> 0 <= r < 7 && IsBitOn(w, Rotate(calendarDay, r))
    ensures r != -1 ==> forall k :: 0 <= k < r ==> !IsBitOn(w, Rotate(calendarDay, k))
  {
    NoNextMeansEmpty(w, calendarDay);
    NextSetFrom(w, calendarDay, 0)
  }

  /** The search loop of getDistanceToPreviousDay, from its count-th step on. */
  function PrevSetFrom(w: Weekdays, origin: int, count: int): (r: int)
    requires SUNDAY <= origin <= SATURDAY && 1 <= count <= 8
    ensures r == -1 ==> forall k :: count <= k <= 7 ==> !IsBitOn(w, RotateBack(origin, k))
    ensures r != -1 ==> count <= r <= 7 && IsBitOn(w, RotateBack(origin, r))
    ensures r != -1 ==> forall k :: count <= k < r ==> !IsBitOn(w, RotateBack(origin, k))
    decreases 8 - count
  {
    if count == 8 then -1
    else if IsBitOn(w, RotateBack(origin, count)) then count
    else PrevSetFrom(w, origin, count + 1)
  }

  /**
   * Weekdays.getDistanceToPreviousDay: how many days back from calendarDay the nearest
   * earlier set day is (1..7; 7 when only calendarDay itself is set), or -1 for the
   * empty set.
   */
  function DistanceToPreviousDay(w: Weekdays, calendarDay: int): (r: int)
    requires SUNDAY <= calendarDay <= SATURDAY
    ensures r == -1 <==> !IsRepeating(w)
    ensures r != -1 ==> 1 <= r <= 7 && IsBitOn(w, RotateBack(calendarDay, r))
    ensures r != -1 ==> forall k :: 1 <= k < r ==> !IsBitOn(w, RotateBack(calendarDay, k))
  {
    NoPreviousMeansEmpty(w, calendarDay);
    PrevSetFrom(w, calendarDay, 1)
  }

  /** Rotating the day of week of day number n by k places gives that of day n + k. */
  lemma RotateIsShift(n: int, k: int, m: int)
    requires m == n + k
    ensures Rotate(WeekdayOf(n), k) == WeekdayOf(m)
  {
    WeekdayShift(n, k);
  }

  /** Rotating back by k places gives the day of week of day n - k. */
  lemma RotateBackIsShift(n: int, k: int, m: int)
    requires m == n - k
    ensures RotateBack(WeekdayOf(n), k) == WeekdayOf(m)
  {
    WeekdayShift(n, -k);
  }

  /**
   * On day numbers: from day `first`, DistanceToNextDay reaches the first day (first
   * included) whose day of the week is set.
   */
  lemma NextSetDay(w: Weekdays, first: int, found: int)
    requires IsRepeating(w) && found == first + DistanceToNextDay(w, WeekdayOf(first))
    ensures IsBitOn(w, WeekdayOf(found))
    ensures forall n :: first <= n < found ==> !IsBitOn(w, WeekdayOf(n))
  {
    var origin := WeekdayOf(first);
    var d := DistanceToNextDay(w, origin);
    RotateIsShift(first, d, found);
    forall n | first <= n < found ensures !IsBitOn(w, WeekdayOf(n)) {
      RotateIsShift(first, n - first, n);
      assert !IsBitOn(w, Rotate(origin, n - first));
    }
  }

  /**
   * On day numbers: from day `last`, DistanceToPreviousDay reaches back to the nearest
   * earlier day (last excluded) whose day of the week is set.
   */
  lemma PreviousSetDay(w: Weekdays, last: int, found: int)
    requires IsRepeating(w) && found == last - DistanceToPreviousDay(w, WeekdayOf(last))
    ensures IsBitOn(w, WeekdayOf(found))
    ensures forall n :: found < n < last ==> !IsBitOn(w, WeekdayOf(n))
  {
    var origin := WeekdayOf(last);
    var d := DistanceToPreviousDay(w, origin);
    RotateBackIsShift(last, d, found);
    forall n | found < n < last ensures !IsBitOn(w, WeekdayOf(n)) {
      RotateBackIsShift(last, last - n, n);
      assert !IsBitOn(w, RotateBack(origin, last - n));
    }
  }

  /** Every day is in ALL. */
  lemma AllHasEveryDay(calendarDay: int)
    requires SUNDAY <= calendarDay <= SATURDAY
    ensures IsBitOn(ALL, calendarDay)
  {
  }
}
