# DeskClock alarms and holidays, modelled in Dafny

This project models the core of the DeskClock alarm provider and holiday table:

- `Alarm`: an alarm's stored fields and its constructors. The model covers:
  - its two encodings, the `Parcel` written by `writeToParcel` and read back by `Alarm(Parcel)`, and the `ContentValues` row read back through a `Cursor`;
  - the schedule computations `getNextAlarmTime` and `getPreviousAlarmTime`;
  - the creation of the next alarm instance;
  - the small predicates (`isTomorrow`, `canPreemptivelyDismiss`, `isDateInThePast`, `isSpecifiedDate`, `isSpecifiedDateTomorrow`);
  - the id guards of `updateAlarm` and `deleteAlarm`.
- `AlarmInstance`: one ringing of an alarm. The model covers:
  - its constructors and its `ContentValues`/`Cursor` encoding;
  - `setAlarmTime`/`getAlarmTime` and the derived times (missed time-to-live, notification time, timeout);
  - the instance table operations `addInstance`, `updateInstance`, `deleteInstance`, `deleteOtherInstances` and `getNextUpcomingInstanceByAlarmId`.
- `Holiday` and `HolidayDao`: the holiday record with its getters and `setId`, and the Room table behind `insertAll` (REPLACE) and the three queries. The queries are by year prefix, by date range, and by compensation-day substring.

Modules:

| module | file | what it holds |
|---|---|---|
| `Common` | common.dfy | `Option`, Java integer widths and their wrap-around, `Uri`, SQLite cell values |
| `Calendar` | calendar.dfy | proleptic Gregorian dates and times in one fixed zone; a lenient `Millis`; normalisation; `Calendar.add` as `AddDays`/`AddMillis` |
| `Weekdays` | weekdays.dfy | the weekday bit set and its distances to the next and previous set day |
| `Tables` | table.dfy | a database table as a sequence of rows in rowid order, with replace, remove, insert, filter and first-match |
| `Parcels` | parcel.dfy | an `android.os.Parcel` as a class holding a typed item buffer and a read position |
| `AlarmSchedule` | alarm_schedule.dfy | the next and previous firing of an alarm, and what they mean |
| `AlarmInstances` | alarm_instance.dfy | the `AlarmInstance` class, its encodings and times, and the instance table |
| `Alarms` | alarm.dfy | the `Alarm` class, its encodings, instance creation, the predicates, and the alarm table guards |
| `SqlText` | sql_text.dfy | SQLite's BINARY text order, `SUBSTR(x, 1, n)` and `LIKE` |
| `DateText` | date_text.dfy | dates written as zero-padded `YYYY-MM-DD`, and why their text order is the calendar order |
| `Holidays` | holiday.dfy | the `Holiday` class, the holiday table class and its queries |

Objects whose fields the source changes are classes: `Alarm`, `AlarmInstance`, `Holiday`, `Parcel`, and the instance, alarm and holiday tables. Their methods carry `modifies` clauses and state their whole new state. Calculations are functions, and their meaning is stated by lemmas:

- the next repeating firing is strictly after now, on a set day, within a week, and no earlier set day qualifies;
- a parcel read of a written alarm gives the alarm back;
- text order of written dates is date order.

The Calendar arithmetic that `getNextAlarmTime` and `getPreviousAlarmTime` perform on one local `Calendar` is modelled as straight-line code over `DateTime` values. Each method is tied to a specification function by its `ensures`.

Assumptions:

- The clock is a parameter: every `Calendar.getInstance()` reads the same instant `now`.
- Time zones and daylight saving are not modelled; one fixed zone.
- Weekday bits: Monday is bit 0 through Sunday in bit 6. Next distance is 0..6, previous distance is 1..7, and both are -1 for the empty set. `com.best.deskclock.data.Weekdays` is not part of this model; this behaviour is its assumed contract.
- Instance state constants and `ALARM_TIMEOUT_*` values come from `ClockContract` and `PreferencesDefaultValues`, which are not part of this model. The model gives them distinct values; no contract depends on the values beyond that.
- The instance table is an SQLite table whose `_id` is an INTEGER PRIMARY KEY without AUTOINCREMENT. An insert with no `_id` takes the largest rowid plus one, or 1 when the table is empty. The schema is not part of this model; this is SQLite's rowid rule for such a table.
- An insert whose explicit `_id` is already taken adds no row. `ContentResolver.insert` then gives a URI ending in `-1`, so `addInstance` stores INVALID_ID in the instance. The content provider is not part of this model; this is the assumed contract of its insert.
- The holiday table is an SQLite table with an AUTOINCREMENT key. Room's `autoGenerate` treats id 0 as unset, and an explicit id replaces the row that has it.
- The `compDays` type converter is not part of this model. It is assumed to store a list as the JSON array text `["d1","d2"]` and a null list as NULL.

## Model

| member | source | states |
|---|---|---|
| Alarms.IndicesMatchQueryColumns | app/src/main/java/com/best/deskclock/provider/Alarm.java:57-136 | each *_INDEX constant is the position of its column in QUERY_COLUMNS; there are 18 columns, all distinct |
| Alarms.NewAlarmData | app/src/main/java/com/best/deskclock/provider/Alarm.java:169-187 | a new alarm is disabled, one-shot, with no holiday option, at the given date and time, with the settings ringtone |
| Alarms.Alarm.constructor | app/src/main/java/com/best/deskclock/provider/Alarm.java:169-187 | the five-argument constructor: id INVALID_ID, the default settings at the given date and time, no instance state |
| Alarms.Alarm.Today | app/src/main/java/com/best/deskclock/provider/Alarm.java:161-167 | Alarm(): the default alarm on today's date at 00:00 |
| Alarms.Alarm.Restore | app/src/main/java/com/best/deskclock/provider/Alarm.java:190-213 | the restore constructor keeps every given field, with the ringtone parsed from its text |
| Alarms.CursorData | app/src/main/java/com/best/deskclock/provider/Alarm.java:215-243 | a cursor row always yields a ringtone, falling back to the default for NULL; enabled is read as the cell == 1 |
| Alarms.Alarm.FromCursor | app/src/main/java/com/best/deskclock/provider/Alarm.java:215-243 | Alarm(Cursor) holds the id and fields the row's cells at the *_INDEX positions give |
| Alarms.ContentValues | app/src/main/java/com/best/deskclock/provider/Alarm.java:268-297 | _ID is written exactly when id != INVALID_ID; a null ringtone is written as NULL; holidayOption is written |
| Alarms.ContentValuesReadBack | app/src/main/java/com/best/deskclock/provider/Alarm.java:268-297 | the row written by createContentValues, read back through the query columns, gives the same id and fields; only a null ringtone becomes the default one |
| Alarms.ReadRow | app/src/main/java/com/best/deskclock/provider/Alarm.java:215-243 | a row whose cells are an alarm's column values reads back as that alarm |
| Alarms.ProjectedCells | app/src/main/java/com/best/deskclock/provider/Alarm.java:268-297 | the stored row, taken in QUERY_COLUMNS order, holds each column's value at its index |
| Alarms.Alarm.WriteToParcel | app/src/main/java/com/best/deskclock/provider/Alarm.java:408-427 | appends exactly the 18 items of the alarm's parcel image in the written order; the read position is unchanged |
| Alarms.Alarm.FromParcel | app/src/main/java/com/best/deskclock/provider/Alarm.java:245-266 | Alarm(Parcel) consumes 18 items and holds what ParcelRead decodes from them; instanceState and instanceId start at 0 |
| Alarms.ParcelRoundTrip | app/src/main/java/com/best/deskclock/provider/Alarm.java:408-427 | reading an alarm's parcel image, wherever it sits in the parcel, gives back the same id and all 17 other fields, including holidayOption |
| Alarms.ReadImage | app/src/main/java/com/best/deskclock/provider/Alarm.java:245-266 | whatever precedes or follows the 18 items, reading at their start decodes the alarm that wrote them |
| Alarms.Alarm.GetNextAlarmTime | app/src/main/java/com/best/deskclock/provider/Alarm.java:473-507 | the method's Calendar steps compute NextAlarmTime: the repeating schedule for a repeating alarm, the one-shot schedule otherwise |
| Alarms.Alarm.GetPreviousAlarmTime | app/src/main/java/com/best/deskclock/provider/Alarm.java:454-471 | the method's Calendar steps compute PreviousFiring of the stored date and time |
| Alarms.InstanceRingtone | app/src/main/java/com/best/deskclock/provider/Alarm.java:440-444 | unless the alarm's ringtone is a random marker, the instance gets the alarm's own ringtone |
| Alarms.InstanceFor | app/src/main/java/com/best/deskclock/provider/Alarm.java:434-452 | the new instance is silent, belongs to the alarm, rings at the time's minute, and copies vibrate, flash, label, durations and volume but not holidayOption |
| Alarms.NewInstance | app/src/main/java/com/best/deskclock/provider/Alarm.java:436-448 | a fresh instance, not yet stored (INVALID_ID), whose content is InstanceFor |
| Alarms.CopySettings | app/src/main/java/com/best/deskclock/provider/Alarm.java:437-448 | only the copied settings and the ringtone change; the id and the time stay |
| Alarms.Alarm.CreateInstanceAfter | app/src/main/java/com/best/deskclock/provider/Alarm.java:434-452 | the instance is InstanceFor at the next alarm time; since only the minute is kept, this is the same under the corrected next time |
| Alarms.CorrectedKeepsMinute | app/src/main/java/com/best/deskclock/provider/Alarm.java:473-507 | the as-written and the corrected next time agree on date, hour and minute |
| Alarms.RepeatingInstanceIsAhead | app/src/main/java/com/best/deskclock/provider/Alarm.java:434-452 | a repeating alarm's instance rings strictly after now, within 7 days, at the alarm's hour and minute, on a set weekday |
| Alarms.OneShotInstanceIsNextTime | app/src/main/java/com/best/deskclock/provider/Alarm.java:434-452 | a one-shot alarm's instance rings exactly at getNextAlarmTime |
| Alarms.CanPreemptivelyDismissStates | app/src/main/java/com/best/deskclock/provider/Alarm.java:366-368 | preemptive dismissal is allowed exactly in the snoozed and notification states; so never in the silent state |
| Alarms.Alarm.CanPreemptivelyDismiss | app/src/main/java/com/best/deskclock/provider/Alarm.java:366-368 | true exactly when the joined instance state is SNOOZE_STATE or NOTIFICATION_STATE |
| Alarms.IsTomorrow | app/src/main/java/com/best/deskclock/provider/Alarm.java:370-377 | false for a snoozed alarm; otherwise whether hour * 60 + minutes of the alarm, in Java `int` arithmetic, is at most that of now's normalised hour and minute |
| Alarms.Alarm.IsDateInThePast | app/src/main/java/com/best/deskclock/provider/Alarm.java:379-387 | whether the stored date at now's hour, minute and second, with milliseconds zero, is an earlier instant than now |
| Alarms.Alarm.IsSpecifiedDate | app/src/main/java/com/best/deskclock/provider/Alarm.java:389-395 | whether the stored year, month or day differs from today's |
| Alarms.IsSpecifiedDateTomorrow | app/src/main/java/com/best/deskclock/provider/Alarm.java:397-405 | whether the given year, month and day are those of today plus one day |
| Alarms.NextAlarmTime | app/src/main/java/com/best/deskclock/provider/Alarm.java:473-507 | getNextAlarmTime as written: NextRepeating for a repeating alarm, NextOneShot of the stored date otherwise |
| Alarms.CorrectedNextAlarmTime | app/src/main/java/com/best/deskclock/provider/Alarm.java:473-507 | as NextAlarmTime, but NextRepeatingZeroed (seconds and milliseconds zero) for a repeating alarm |
| AlarmSchedule.NextRepeating | app/src/main/java/com/best/deskclock/provider/Alarm.java:478-493 | now's instant at the alarm's hour and minute, one day on when not after now, then on to the next set weekday, at hour and minute again |
| AlarmSchedule.NextOneShot | app/src/main/java/com/best/deskclock/provider/Alarm.java:494-503 | the stored date at hour:minute with seconds and milliseconds zero, one day later when that is not after now |
| AlarmSchedule.PreviousFiring | app/src/main/java/com/best/deskclock/provider/Alarm.java:454-471 | the stored date and time, seconds zero, moved back by the distance to the previous set weekday; null when that distance is not positive |
| Alarms.IsTomorrowMeansNextDay | app/src/main/java/com/best/deskclock/provider/Alarm.java:370-377 | unless snoozed, isTomorrow holds exactly when a daily alarm at that time next rings tomorrow, and fails exactly when it rings today |
| Alarms.SnoozedIsNotTomorrow | app/src/main/java/com/best/deskclock/provider/Alarm.java:371-373 | a snoozed alarm is never "tomorrow" |
| Alarms.DailyFiresOnSearchStart | app/src/main/java/com/best/deskclock/provider/Alarm.java:478-493 | an alarm set for every day rings on the first day its search looks at |
| Alarms.DateInThePastByDay | app/src/main/java/com/best/deskclock/provider/Alarm.java:379-387 | isDateInThePast holds iff the stored date is before today, or is today and now's millisecond is non-zero |
| Alarms.SpecifiedDateIsAnotherDay | app/src/main/java/com/best/deskclock/provider/Alarm.java:389-395 | isSpecifiedDate holds iff the stored date is another day than today |
| Alarms.SpecifiedDateTomorrowIsNextDay | app/src/main/java/com/best/deskclock/provider/Alarm.java:397-405 | isSpecifiedDateTomorrow holds iff the given date is valid and its day number is today's plus one |
| Alarms.UpdateAlarm | app/src/main/java/com/best/deskclock/provider/Alarm.java:350-354 | a no-op for INVALID_ID; otherwise the row with the alarm's id gets the alarm's values |
| Alarms.DeleteAlarm | app/src/main/java/com/best/deskclock/provider/Alarm.java:356-360 | a no-op returning false for INVALID_ID; otherwise removes the row, returning true exactly when a row was there |
| AlarmSchedule.CandidateNotAfterNow | app/src/main/java/com/best/deskclock/provider/Alarm.java:479-483 | now's date at the alarm's hour and minute, with now's seconds, is not after now when its minute of day is not after now's |
| AlarmSchedule.StartDay | app/src/main/java/com/best/deskclock/provider/Alarm.java:483-485 | the search starts tomorrow exactly when the alarm's minute of day is not after now's, today otherwise |
| AlarmSchedule.RepeatingCandidateOnDay | app/src/main/java/com/best/deskclock/provider/Alarm.java:479-485 | the first candidate of the repeating search falls on the search's start day at the alarm's time |
| AlarmSchedule.NextRepeatingOnDay | app/src/main/java/com/best/deskclock/provider/Alarm.java:478-493 | the Calendar steps of the repeating branch land on the found day at the alarm's hour and minute |
| AlarmSchedule.NextRepeatingDayIsFirstSet | app/src/main/java/com/best/deskclock/provider/Alarm.java:487-490 | the found day is a set weekday at most 6 days after the start, and no day between them is set |
| AlarmSchedule.FiringDayIsAhead | app/src/main/java/com/best/deskclock/provider/Alarm.java:478-493 | any time on the found day at the alarm's minute, with seconds not after now's, is strictly after now and at most a week ahead |
| AlarmSchedule.NextRepeatingIsAhead | app/src/main/java/com/best/deskclock/provider/Alarm.java:478-493 | a repeating alarm's next time has its hour and minute, is strictly after now, at most 7 days ahead, on a set weekday |
| AlarmSchedule.NextRepeatingIsFirst | app/src/main/java/com/best/deskclock/provider/Alarm.java:487-490 | no firing on an earlier day is after now: every qualifying instant is on the found day or later |
| AlarmSchedule.FiringDayIsNotBefore | app/src/main/java/com/best/deskclock/provider/Alarm.java:487-490 | the found day is not after the day of any set-weekday instant at the alarm's time that is after now |
| AlarmSchedule.NextRepeatingKeepsNowSeconds | app/src/main/java/com/best/deskclock/provider/Alarm.java:475-479 | as written, a repeating alarm's next time keeps now's seconds (now 08:00:30.500 gives 09:00:30) |
| AlarmSchedule.NextRepeatingZeroed | app/src/main/java/com/best/deskclock/provider/Alarm.java:475-476 | the corrected repeating next time has seconds and milliseconds zero |
| AlarmSchedule.NextRepeatingZeroedIsAhead | app/src/main/java/com/best/deskclock/provider/Alarm.java:478-493 | the corrected time is still strictly after now, within 7 days, on a set weekday |
| AlarmSchedule.OneShotMovesAtMostOnce | app/src/main/java/com/best/deskclock/provider/Alarm.java:494-503 | the stored date and time is moved exactly one day when it is not after now, never more; a base a day or more old stays in the past |
| AlarmSchedule.PreviousSetDayBeforeIsNearest | app/src/main/java/com/best/deskclock/provider/Alarm.java:464-467 | the day stepped back to is a set weekday 1 to 7 days before the stored date, and no day between is set |
| AlarmSchedule.PreviousFiringFromIs | app/src/main/java/com/best/deskclock/provider/Alarm.java:464-470 | null exactly for a one-shot alarm; otherwise the nearest earlier set day at the same time of day |
| AlarmSchedule.PreviousFiringIsNearest | app/src/main/java/com/best/deskclock/provider/Alarm.java:454-471 | getPreviousAlarmTime is null exactly for a one-shot alarm, otherwise the nearest earlier set day at hour:minutes with seconds zero |
| Weekdays.GetBits | app/src/main/java/com/best/deskclock/provider/Alarm.java:416 | the bits written are 0..127, and fromBits of them gives the same weekday set |
| Weekdays.DistanceToNextDay | app/src/main/java/com/best/deskclock/provider/Alarm.java:487 | -1 exactly for the empty set; otherwise the distance 0..6 to the nearest set day, with none skipped |
| Weekdays.DistanceToPreviousDay | app/src/main/java/com/best/deskclock/provider/Alarm.java:464 | -1 exactly for the empty set; otherwise the distance 1..7 back to the nearest set day, with none skipped |
| Weekdays.NextSetDay | app/src/main/java/com/best/deskclock/provider/Alarm.java:487-490 | on day numbers: the day reached is set and no day from the start up to it is |
| Weekdays.PreviousSetDay | app/src/main/java/com/best/deskclock/provider/Alarm.java:464-467 | on day numbers: the day reached backwards is set and no day between it and the start is |
| AlarmInstances.IndicesMatchQueryColumns | app/src/main/java/com/best/deskclock/provider/AlarmInstance.java:45-85 | each *_INDEX constant is the position of its column in QUERY_COLUMNS; COLUMN_COUNT columns, all distinct |
| AlarmInstances.NewInstanceData | app/src/main/java/com/best/deskclock/provider/AlarmInstance.java:110-122 | a new instance is silent, at the calendar's minute, with the given alarm id and no ringtone yet |
| AlarmInstances.AlarmInstance.constructor | app/src/main/java/com/best/deskclock/provider/AlarmInstance.java:105-108 | AlarmInstance(calendar, alarmId): INVALID_ID, the defaults at the calendar's minute, the given alarm |
| AlarmInstances.AlarmInstance.WithoutAlarm | app/src/main/java/com/best/deskclock/provider/AlarmInstance.java:110-122 | AlarmInstance(calendar): the same with no alarm |
| AlarmInstances.AlarmInstance.Copy | app/src/main/java/com/best/deskclock/provider/AlarmInstance.java:124-141 | the copy has the same id and all 15 other fields |
| AlarmInstances.CursorData | app/src/main/java/com/best/deskclock/provider/AlarmInstance.java:143-168 | a row always yields a ringtone; the alarm id is null exactly when its cell is NULL |
| AlarmInstances.AlarmInstance.FromCursor | app/src/main/java/com/best/deskclock/provider/AlarmInstance.java:143-168 | AlarmInstance(Cursor) holds the id and fields that the row's cells give |
| AlarmInstances.ContentValues | app/src/main/java/com/best/deskclock/provider/AlarmInstance.java:170-197 | _ID is written exactly when mId != INVALID_ID; a null ringtone and a null alarm id are written as NULL |
| AlarmInstances.ContentValuesReadBack | app/src/main/java/com/best/deskclock/provider/AlarmInstance.java:170-197 | the stored row reads back as the same id and fields; only a null ringtone becomes the default one |
| AlarmInstances.ReadRow | app/src/main/java/com/best/deskclock/provider/AlarmInstance.java:143-168 | a row whose cells are an instance's column values reads back as that instance |
| AlarmInstances.ProjectedCells | app/src/main/java/com/best/deskclock/provider/AlarmInstance.java:170-197 | the stored row, taken in QUERY_COLUMNS order, holds each column's value at its index |
| AlarmInstances.AlarmTimeOf | app/src/main/java/com/best/deskclock/provider/AlarmInstance.java:295-305 | the alarm time is a valid calendar value at the same instant as the stored fields with seconds zero |
| AlarmInstances.AlarmInstance.AlarmTime | app/src/main/java/com/best/deskclock/provider/AlarmInstance.java:295-305 | getAlarmTime: the stored year, month, day, hour and minute with seconds and milliseconds zero, normalised |
| AlarmInstances.AlarmInstance.SetAlarmTime | app/src/main/java/com/best/deskclock/provider/AlarmInstance.java:307-313 | only the five time fields change; getAlarmTime then gives the calendar's minute with seconds zero |
| AlarmInstances.SetThenGetAlarmTime | app/src/main/java/com/best/deskclock/provider/AlarmInstance.java:295-313 | set then get reproduces the calendar's date, hour and minute, with seconds and milliseconds zero |
| AlarmInstances.AlarmInstance.MissedTimeToLive | app/src/main/java/com/best/deskclock/provider/AlarmInstance.java:322-326 | exactly 12 hours after the alarm time |
| AlarmInstances.MissedTimeToLiveOnTheClock | app/src/main/java/com/best/deskclock/provider/AlarmInstance.java:322-326 | on the clock face: the same minute, the hour plus 12 modulo 24, seconds zero |
| AlarmInstances.AlarmInstance.NotificationTime | app/src/main/java/com/best/deskclock/provider/AlarmInstance.java:315-320 | the alarm time minus the reminder minutes; for Integer.MIN_VALUE the negation wraps and the time moves forward instead |
| AlarmInstances.AlarmInstance.Timeout | app/src/main/java/com/best/deskclock/provider/AlarmInstance.java:328-341 | null exactly for "never"; alarm time plus the ringtone's length for "end of ringtone"; otherwise plus the setting in minutes |
| AlarmInstances.InsertedId | app/src/main/java/com/best/deskclock/provider/AlarmInstance.java:265-267 | an explicit id is kept; an unset id gets one above every id in the table (1 for an empty table) |
| AlarmInstances.UpdateInstance | app/src/main/java/com/best/deskclock/provider/AlarmInstance.java:270-274 | a no-op for INVALID_ID; otherwise the row with that id gets the instance's values |
| AlarmInstances.DeleteInstance | app/src/main/java/com/best/deskclock/provider/AlarmInstance.java:276-279 | a no-op for INVALID_ID; otherwise removes the row with that id |
| AlarmInstances.InsertInstance | app/src/main/java/com/best/deskclock/provider/AlarmInstance.java:265-267 | the row is inserted under its new id and the instance receives it; a clashing id inserts nothing and yields INVALID_ID |
| AlarmInstances.AddInstance | app/src/main/java/com/best/deskclock/provider/AlarmInstance.java:254-268 | an instance of the same alarm at the same alarm time is updated in place under its id (the first such in rowid order); otherwise a fresh row is inserted |
| AlarmInstances.VisitInstance | app/src/main/java/com/best/deskclock/provider/AlarmInstance.java:283-288 | one loop step: an instance other than the kept one is unregistered, then deleted |
| AlarmInstances.DeleteOtherInstances | app/src/main/java/com/best/deskclock/provider/AlarmInstance.java:281-289 | afterwards only the kept instance of the alarm remains; other alarms' rows are untouched; each removed one was unregistered, in order |
| AlarmInstances.NextUpcomingInstanceByAlarmId | app/src/main/java/com/best/deskclock/provider/AlarmInstance.java:224-236 | null exactly when the alarm has no instance; otherwise one of its instances with the earliest alarm time, the first in rowid order among ties, as AlarmInstance(Cursor) reads it back: a null ringtone becomes the default |
| AlarmInstances.WithDefaultRingtone | app/src/main/java/com/best/deskclock/provider/AlarmInstance.java:158-162 | reading a stored instance back always gives a ringtone; only a null ringtone changes, to the default |
| Holidays.Holiday.constructor | app/src/main/java/com/best/deskclock/holiday/Holiday.java:34-39 | the getters return the name, dates and compensation days as given, with no validation; the id is 0 (unset) |
| Holidays.Holiday.GetName | app/src/main/java/com/best/deskclock/holiday/Holiday.java:41-43 | the name given to the constructor |
| Holidays.Holiday.GetStartDate | app/src/main/java/com/best/deskclock/holiday/Holiday.java:45-47 | the start date given to the constructor |
| Holidays.Holiday.GetEndDate | app/src/main/java/com/best/deskclock/holiday/Holiday.java:49-51 | the end date given to the constructor |
| Holidays.Holiday.GetCompDays | app/src/main/java/com/best/deskclock/holiday/Holiday.java:53-55 | the compensation days given to the constructor |
| Holidays.Holiday.GetId | app/src/main/java/com/best/deskclock/holiday/Holiday.java:57-59 | the current id: 0 from the constructor, then whatever setId last stored |
| Holidays.Holiday.SetId | app/src/main/java/com/best/deskclock/holiday/Holiday.java:61-63 | only the id changes, and getId then returns it |
| Holidays.InsertOne | app/src/main/java/com/best/deskclock/holiday/HolidayDao.java:29-30 | one REPLACE insert keeps the table sorted with every id at most the highest id ever used |
| Holidays.InsertOneEffect | app/src/main/java/com/best/deskclock/holiday/HolidayDao.java:29-30 | afterwards the row is present and the only one with its id; a generated id is new; every row with another id is as before |
| Holidays.InsertedAll | app/src/main/java/com/best/deskclock/holiday/HolidayDao.java:29-30 | inserting the list in order keeps the table well formed |
| Holidays.InsertedAllHolds | app/src/main/java/com/best/deskclock/holiday/HolidayDao.java:29-30 | every inserted holiday is in the table under its id, unless a later one in the list takes that id |
| Holidays.InsertedAllKeeps | app/src/main/java/com/best/deskclock/holiday/HolidayDao.java:29-30 | a row whose id no listed holiday names is kept |
| Holidays.InsertedAllFrom | app/src/main/java/com/best/deskclock/holiday/HolidayDao.java:29-30 | every row afterwards was there before or carries a listed holiday's data |
| Holidays.HolidayTable.Insert | app/src/main/java/com/best/deskclock/holiday/HolidayDao.java:29-30 | the table afterwards is InsertOne of the table before |
| Holidays.HolidayTable.InsertAll | app/src/main/java/com/best/deskclock/holiday/HolidayDao.java:29-30 | the loop leaves the table as InsertedAll of the list |
| Holidays.HolidayTable.HolidaysByYear | app/src/main/java/com/best/deskclock/holiday/HolidayDao.java:32-33 | exactly the rows whose startDate begins with the year text |
| Holidays.ByYearIsStartYear | app/src/main/java/com/best/deskclock/holiday/HolidayDao.java:32-33 | for a written start date, a four-digit year selects it iff it starts in that year; a range starting the year before is not selected |
| Holidays.HolidayTable.HolidayByDate | app/src/main/java/com/best/deskclock/holiday/HolidayDao.java:35-36 | null exactly when no row has startDate <= date <= endDate as text; otherwise such a row |
| Holidays.CoversIsDayRange | app/src/main/java/com/best/deskclock/holiday/HolidayDao.java:35-36 | for written dates, the text range test is the inclusive day range from start to end |
| Holidays.BackwardsRangeCoversNothing | app/src/main/java/com/best/deskclock/holiday/HolidayDao.java:35-36 | a holiday whose end is before its start matches no date |
| Holidays.HolidayTable.WorkdayByDate | app/src/main/java/com/best/deskclock/holiday/HolidayDao.java:38-39 | null exactly when no row's compDays text matches the LIKE pattern; otherwise such a row |
| Holidays.ListsDayIsSubstring | app/src/main/java/com/best/deskclock/holiday/HolidayDao.java:38-39 | for a date without wildcards, the LIKE test is a substring test on the stored compDays text, ignoring ASCII case |
| Holidays.ListedDayIsFound | app/src/main/java/com/best/deskclock/holiday/HolidayDao.java:38-39 | every listed compensation day finds its holiday |
| Holidays.PartOfListedDayMatches | app/src/main/java/com/best/deskclock/holiday/HolidayDao.java:38-39 | matching is by substring: "10-07" finds a holiday listing "2023-10-07" |
| Holidays.NationalDayScenario | app/src/test/java/com/best/deskclock/holiday/HolidayRepositoryTest.java:46-79 | with the National Day range 2023-10-01..2023-10-03 stored, 2023-10-01 finds it and 2023-11-11 finds nothing |
| Holidays.CompensationDayScenario | app/src/test/java/com/best/deskclock/holiday/HolidayRepositoryTest.java:58-68 | with compDays ["2023-10-07"] stored, 2023-10-07 finds the holiday as a workday |
| SqlText.Prefix | app/src/main/java/com/best/deskclock/holiday/HolidayDao.java:32 | SUBSTR(s, 1, n) is a prefix of s, of length n when s is long enough |
| SqlText.LikeInfix | app/src/main/java/com/best/deskclock/holiday/HolidayDao.java:38 | s LIKE the pattern '%', q, '%' (joined) holds, for a wildcard-free q, iff q occurs in s, ignoring ASCII case |
| DateText.FormatOrder | app/src/main/java/com/best/deskclock/holiday/HolidayDao.java:35 | written dates compare as text exactly as they compare as dates, and are equal only for equal dates |
| DateText.FormatLessEq | app/src/main/java/com/best/deskclock/holiday/HolidayDao.java:35 | the text <= used by BETWEEN is <= on day numbers |
| DateText.YearOfFormat | app/src/main/java/com/best/deskclock/holiday/HolidayDao.java:32 | the first four characters of a written date are its year |

## Left out

- `com.best.deskclock.data.Weekdays` is not part of this model. Its distances and bit layout are an assumed contract; see above.
- `RingtoneUtils`, the default ringtone, the settings ringtone, `SettingsDAO`'s reminder minutes and the ringtone's duration are foreign calls, so they are parameters. `RingtonePick` carries the random-ringtone answers and picks.
- Alarms.Alarm.Today: the constructor reads the wall clock, which is passed as `today`. The three `Calendar.getInstance()` calls of `Alarm()` are treated as one instant.
- Alarms.Alarm.IsDateInThePast, Alarms.Alarm.IsSpecifiedDate and Alarms.IsSpecifiedDateTomorrow read the wall clock, which is passed as `now`. The two `Calendar.getInstance()` calls of `isDateInThePast` are treated as one instant.
- The calendar is proleptic Gregorian with a year 0 and negative years. `GregorianCalendar` switches to the Julian calendar before 1582-10-15 and counts years by era, so dates before that cut-over differ.
- Time zones, daylight saving and the Calendar's lenient handling of out-of-range fields beyond plain carrying are not modelled. `getPreviousAlarmTime`'s `currentTime` only supplies a time zone, so the parameter is dropped.
- Parcels.Parcel: reads past the end give the type's default and do not move; a wrong-typed item gives the default and is consumed. Android's native parcel format is not modelled.
- The alarm label and alert strings are never null here. A null label or a null stored ringtone text is not modelled; a missing ringtone is `None`.
- ContentResolver, Cursor and CursorLoader plumbing is database and IPC I/O, so `getAlarm`, `getAlarms`, `addAlarm`, `getInstance`, `getInstances`, `getInstancesByState`, `getAlarmsCursorLoader`, `createIntent`, `getContentUri` and `getId` are not modelled. The tables they reach are modelled as in-memory tables instead, and `getInstancesByAlarmId` becomes the filter the table methods use.
- AlarmInstances.AddInstance and AlarmInstances.InsertInstance require that an unset id still has room below the largest rowid. SQLITE_FULL is not modelled.
- Holidays.InsertOne: AUTOINCREMENT overflow (SQLITE_FULL) is not modelled, and ids read back are not truncated to Java `int`.
- Holidays.HolidayTable.HolidaysByYear, Holidays.HolidayTable.HolidayByDate and Holidays.HolidayTable.WorkdayByDate return row values, not fresh `Holiday` objects. Null query arguments are not modelled; SQLite compares NULL as unknown, so such queries would find nothing.
- Holidays.HolidayTable.HolidayByDate and Holidays.HolidayTable.WorkdayByDate return the first match in rowid order. SQLite does not promise an order; this assumes a full table scan.
- The `compDays` type converter is not part of this model; the JSON array text is an assumption (see above).
- The holiday-option policy (skip holidays, big and small weeks, single day off) and the alarm-instance state machine have no implementation in the modelled code. `holidayOption` is only stored, encoded and decoded: `getNextAlarmTime` ignores it and `createInstanceAfter` does not copy it.
- `HolidayRepository` (network fetch, Gson parsing, executor) and `HolidayDialogFragment` (UI) are not part of this model.
- `equals`, `hashCode`, `toString`, `getLabelOrDefault`, `describeContents` and the Parcelable `CREATOR` are presentation or Java plumbing.
- Holidays.Holiday: the `name`, `startDate`, `endDate` and `compDays` fields are `const`, so that they never change is a fact of the types, not a proved contract.

## Findings

| source | as written | input that shows it | evidently intended | confidence | as-written member | corrected member |
|---|---|---|---|---|---|---|
| app/src/main/java/com/best/deskclock/provider/Alarm.java:475-479 | for a repeating alarm, `setTimeInMillis(currentTime)` at line 479 overwrites the seconds and milliseconds cleared at lines 475-476, so the next alarm time keeps now's seconds and milliseconds | now = 2024-01-01 08:00:30.500, every day, alarm 09:00: the result is 09:00:30.500 | seconds and milliseconds zero, as in the one-shot branch | not executed | AlarmSchedule.NextRepeatingKeepsNowSeconds | AlarmSchedule.NextRepeatingZeroedIsAhead |

The corrected function `AlarmSchedule.NextRepeatingZeroed` is what `Alarms.CorrectedNextAlarmTime` uses. `Alarms.Alarm.CreateInstanceAfter` is stated against the corrected time. It is the same instance either way, since an instance keeps only the minute (`Alarms.CorrectedKeepsMinute`). `Alarms.Alarm.GetNextAlarmTime` keeps the as-written behaviour of the method it models.
