/**
 * An alarm (com.best.deskclock.provider.Alarm): the time of day it rings at, the stored
 * date a one-shot alarm rings on, the set of weekdays a repeating one rings on, its
 * presentation settings and its holiday option. An alarm is encoded three ways that
 * must agree: as the ContentValues of its row, as the cursor row a query with
 * QUERY_COLUMNS returns, and as a Parcel.
 *
 * The alarms table is reached through a ContentResolver in the app; here it is an
 * `AlarmStore` of rows in rowid order. The clock (Calendar.getInstance()) and the
 * ringtone helpers are parameters.
 */
module Alarms {
  import opened Common
  import opened Calendar
  import opened Weekdays
  import opened Tables
  import opened AlarmSchedule
  import opened Parcels
  import AlarmInstances

  /** Alarms start with this id until they are saved. */
  const INVALID_ID: Int64 := -1

  // ---------------------------------------------------------------------------
  // Columns

  datatype AlarmColumn =
    | Id | Year | Month | Day | Hour | Minutes | DaysOfWeek | Enabled | Vibrate | Flash | Label
    | Ringtone | DeleteAfterUse | AutoSilenceDuration | SnoozeDuration | CrescendoDuration
    | AlarmVolume | HolidayOption

  /** The projection every alarm query asks for. */
  const QUERY_COLUMNS: seq<AlarmColumn> :=
    [Id, Year, Month, Day, Hour, Minutes, DaysOfWeek, Enabled, Vibrate, Flash, Label,
     Ringtone, DeleteAfterUse, AutoSilenceDuration, SnoozeDuration, CrescendoDuration,
     AlarmVolume, HolidayOption]

  const ID_INDEX := 0
  const YEAR_INDEX := 1
  const MONTH_INDEX := 2
  const DAY_INDEX := 3
  const HOUR_INDEX := 4
  const MINUTES_INDEX := 5
  const DAYS_OF_WEEK_INDEX := 6
  const ENABLED_INDEX := 7
  const VIBRATE_INDEX := 8
  const FLASH_INDEX := 9
  const LABEL_INDEX := 10
  const RINGTONE_INDEX := 11
  const DELETE_AFTER_USE_INDEX := 12
  const AUTO_SILENCE_DURATION_INDEX := 13
  const SNOOZE_DURATION_INDEX := 14
  const CRESCENDO_DURATION_INDEX := 15
  const ALARM_VOLUME_INDEX := 16
  const HOLIDAY_OPTION_INDEX := 17
  const COLUMN_COUNT := HOLIDAY_OPTION_INDEX + 1

  /** Each *_INDEX constant is the position of its column in QUERY_COLUMNS, and no column repeats. */
  lemma IndicesMatchQueryColumns()
    ensures |QUERY_COLUMNS| == COLUMN_COUNT == 18
    ensures QUERY_COLUMNS[ID_INDEX] == Id && QUERY_COLUMNS[YEAR_INDEX] == Year
    ensures QUERY_COLUMNS[MONTH_INDEX] == Month && QUERY_COLUMNS[DAY_INDEX] == Day
    ensures QUERY_COLUMNS[HOUR_INDEX] == Hour && QUERY_COLUMNS[MINUTES_INDEX] == Minutes
    ensures QUERY_COLUMNS[DAYS_OF_WEEK_INDEX] == DaysOfWeek && QUERY_COLUMNS[ENABLED_INDEX] == Enabled
    ensures QUERY_COLUMNS[VIBRATE_INDEX] == Vibrate && QUERY_COLUMNS[FLASH_INDEX] == Flash
    ensures QUERY_COLUMNS[LABEL_INDEX] == Label && QUERY_COLUMNS[RINGTONE_INDEX] == Ringtone
    ensures QUERY_COLUMNS[DELETE_AFTER_USE_INDEX] == DeleteAfterUse
    ensures QUERY_COLUMNS[AUTO_SILENCE_DURATION_INDEX] == AutoSilenceDuration
    ensures QUERY_COLUMNS[SNOOZE_DURATION_INDEX] == SnoozeDuration
    ensures QUERY_COLUMNS[CRESCENDO_DURATION_INDEX] == CrescendoDuration
    ensures QUERY_COLUMNS[ALARM_VOLUME_INDEX] == AlarmVolume
    ensures QUERY_COLUMNS[HOLIDAY_OPTION_INDEX] == HolidayOption
    ensures forall i, j :: 0 <= i < j < |QUERY_COLUMNS| ==> QUERY_COLUMNS[i] != QUERY_COLUMNS[j]
  {
  }

  // ---------------------------------------------------------------------------
  // Row content

  /** Everything an alarm row stores besides its id. */
  datatype AlarmData = AlarmData(
    enabled: bool, year: Int32, month: Int32, day: Int32, hour: Int32, minutes: Int32,
    daysOfWeek: Weekdays, vibrate: bool, flash: bool, alarmLabel: string, alert: Option<Uri>,
    deleteAfterUse: bool, autoSilenceDuration: Int32, snoozeDuration: Int32,
    crescendoDuration: Int32, alarmVolume: Int32, holidayOption: Int32)

  /**
   * The content Alarm(year, month, day, hour, minutes) gives a new alarm: disabled,
   * one-shot, vibrating and flashing, no label, the ringtone from the settings,
   * 10 minutes of auto-silence and of snooze, no crescendo, volume 11, holiday option 0.
   */
  function NewAlarmData(year: Int32, month: Int32, day: Int32, hour: Int32, minutes: Int32,
                        settingsRingtone: Option<Uri>): (d: AlarmData)
    ensures !d.enabled && !IsRepeating(d.daysOfWeek) && d.holidayOption == 0
    ensures (d.year, d.month, d.day, d.hour, d.minutes) == (year, month, day, hour, minutes)
    ensures d.alert == settingsRingtone
  {
    AlarmData(false, year, month, day, hour, minutes, NONE, true, true, "", settingsRingtone,
      false, 10, 10, 0, 11, 0)
  }

  /** The value createContentValues puts under column c. */
  function Cell(id: Int64, d: AlarmData, c: AlarmColumn): SqlValue
  {
    match c
    case Id => SqlInt(id)
    case Year => SqlInt(d.year)
    case Month => SqlInt(d.month)
    case Day => SqlInt(d.day)
    case Hour => SqlInt(d.hour)
    case Minutes => SqlInt(d.minutes)
    case DaysOfWeek => SqlInt(GetBits(d.daysOfWeek))
    case Enabled => SqlInt(BoolToInt(d.enabled))
    case Vibrate => SqlInt(BoolToInt(d.vibrate))
    case Flash => SqlInt(BoolToInt(d.flash))
    case Label => SqlText(d.alarmLabel)
    case Ringtone => if d.alert.None? then SqlNull else SqlText(d.alert.value.text)
    case DeleteAfterUse => SqlInt(BoolToInt(d.deleteAfterUse))
    case AutoSilenceDuration => SqlInt(d.autoSilenceDuration)
    case SnoozeDuration => SqlInt(d.snoozeDuration)
    case CrescendoDuration => SqlInt(d.crescendoDuration)
    case AlarmVolume => SqlInt(d.alarmVolume)
    case HolidayOption => SqlInt(d.holidayOption)
  }

  /**
   * Alarm.createContentValues, for an alarm with id `id` and content `d`: every column,
   * except the id when the alarm is unsaved, and NULL for a null ringtone.
   */
  function ContentValues(id: Int64, d: AlarmData): (cv: map<AlarmColumn, SqlValue>)
    ensures Id in cv <==> id != INVALID_ID
    ensures Ringtone in cv && (cv[Ringtone] == SqlNull <==> d.alert.None?)
    ensures HolidayOption in cv && cv[HolidayOption] == SqlInt(d.holidayOption)
  {
    assert QUERY_COLUMNS[0] == Id && QUERY_COLUMNS[11] == Ringtone && QUERY_COLUMNS[17] == HolidayOption;
    map c | c in QUERY_COLUMNS && (c != Id || id != INVALID_ID) :: Cell(id, d, c)
  }

  /** The cursor row a query with QUERY_COLUMNS returns for a row written with values `cv`. */
  function Project(cv: map<AlarmColumn, SqlValue>): (row: seq<SqlValue>)
    ensures |row| == COLUMN_COUNT
  {
    seq(|QUERY_COLUMNS|, i requires 0 <= i < |QUERY_COLUMNS| =>
      if QUERY_COLUMNS[i] in cv then cv[QUERY_COLUMNS[i]] else SqlNull)
  }

  /** The id Alarm(Cursor) reads. */
  function CursorId(row: seq<SqlValue>): Int64
    requires |row| == COLUMN_COUNT
  {
    CellInt64(row[ID_INDEX])
  }

  /** The ringtone Alarm(Cursor) reads: a NULL cell means the default alarm ringtone. */
  function CursorAlert(v: SqlValue, defaultRingtone: Uri): (u: Option<Uri>)
    ensures u.Some?
    ensures v.SqlText? ==> u == Some(Uri(v.s))
  {
    if v == SqlNull then Some(defaultRingtone) else Some(Uri(CellText(v)))
  }

  /** The content Alarm(Cursor) reads: booleans are `== 1`, the weekdays come through Weekdays.fromBits. */
  function CursorData(row: seq<SqlValue>, defaultRingtone: Uri): (d: AlarmData)
    requires |row| == COLUMN_COUNT
    ensures d.alert.Some?
    ensures d.enabled <==> CellInt32(row[ENABLED_INDEX]) == 1
  {
    AlarmData(
      CellInt32(row[ENABLED_INDEX]) == 1,
      CellInt32(row[YEAR_INDEX]), CellInt32(row[MONTH_INDEX]), CellInt32(row[DAY_INDEX]),
      CellInt32(row[HOUR_INDEX]), CellInt32(row[MINUTES_INDEX]),
      FromBits(CellInt32(row[DAYS_OF_WEEK_INDEX])),
      CellInt32(row[VIBRATE_INDEX]) == 1, CellInt32(row[FLASH_INDEX]) == 1,
      CellText(row[LABEL_INDEX]), CursorAlert(row[RINGTONE_INDEX], defaultRingtone),
      CellInt32(row[DELETE_AFTER_USE_INDEX]) == 1,
      CellInt32(row[AUTO_SILENCE_DURATION_INDEX]), CellInt32(row[SNOOZE_DURATION_INDEX]),
      CellInt32(row[CRESCENDO_DURATION_INDEX]), CellInt32(row[ALARM_VOLUME_INDEX]),
      CellInt32(row[HOLIDAY_OPTION_INDEX]))
  }

  /** A saved alarm's content with a null ringtone read back as the default one. */
  function WithDefaultAlert(d: AlarmData, defaultRingtone: Uri): AlarmData
  {
    d.(alert := if d.alert.None? then Some(defaultRingtone) else d.alert)
  }

  /**
   * The two encodings agree: a saved alarm read back through QUERY_COLUMNS and the
   * *_INDEX constants has its id and content, holiday option included, except that a
   * null ringtone comes back as the default one.
   */
  lemma ContentValuesReadBack(id: Int64, d: AlarmData, defaultRingtone: Uri)
    requires id != INVALID_ID
    ensures CursorId(Project(ContentValues(id, d))) == id
    ensures CursorData(Project(ContentValues(id, d)), defaultRingtone) == WithDefaultAlert(d, defaultRingtone)
  {
    ProjectedCells(id, d);
    ReadRow(Project(ContentValues(id, d)), id, d, defaultRingtone);
  }

  /** Reading a row that holds each column's value at its position. */
  lemma ReadRow(row: seq<SqlValue>, id: Int64, d: AlarmData, defaultRingtone: Uri)
    requires |row| == COLUMN_COUNT
    requires forall i :: 0 <= i < COLUMN_COUNT ==> row[i] == Cell(id, d, QUERY_COLUMNS[i])
    ensures CursorId(row) == id
    ensures CursorData(row, defaultRingtone) == WithDefaultAlert(d, defaultRingtone)
  {
    IndicesMatchQueryColumns();
    assert row[ID_INDEX] == SqlInt(id);
    assert row[ENABLED_INDEX] == SqlInt(BoolToInt(d.enabled));
    assert row[YEAR_INDEX] == SqlInt(d.year) && row[MONTH_INDEX] == SqlInt(d.month);
    assert row[DAY_INDEX] == SqlInt(d.day) && row[HOUR_INDEX] == SqlInt(d.hour);
    assert row[MINUTES_INDEX] == SqlInt(d.minutes);
    assert row[DAYS_OF_WEEK_INDEX] == SqlInt(GetBits(d.daysOfWeek));
    assert row[VIBRATE_INDEX] == SqlInt(BoolToInt(d.vibrate)) && row[FLASH_INDEX] == SqlInt(BoolToInt(d.flash));
    assert row[LABEL_INDEX] == SqlText(d.alarmLabel);
    assert row[RINGTONE_INDEX] == Cell(id, d, Ringtone);
    assert row[DELETE_AFTER_USE_INDEX] == SqlInt(BoolToInt(d.deleteAfterUse));
    assert row[AUTO_SILENCE_DURATION_INDEX] == SqlInt(d.autoSilenceDuration);
    assert row[SNOOZE_DURATION_INDEX] == SqlInt(d.snoozeDuration);
    assert row[CRESCENDO_DURATION_INDEX] == SqlInt(d.crescendoDuration);
    assert row[ALARM_VOLUME_INDEX] == SqlInt(d.alarmVolume);
    assert row[HOLIDAY_OPTION_INDEX] == SqlInt(d.holidayOption);
  }

  /** A saved alarm's cursor row holds, at each position, the value of that position's column. */
  lemma ProjectedCells(id: Int64, d: AlarmData)
    requires id != INVALID_ID
    ensures forall i :: 0 <= i < COLUMN_COUNT ==> Project(ContentValues(id, d))[i] == Cell(id, d, QUERY_COLUMNS[i])
  {
  }

  // ---------------------------------------------------------------------------
  // The parcel encoding

  /** The number of values writeToParcel writes. */
  const PARCEL_SIZE := 18

  /** What writeToParcel appends for an alarm with id `id` and content `d`, in order. */
  function ParcelImage(id: Int64, d: AlarmData): (items: seq<ParcelItem>)
    ensures |items| == PARCEL_SIZE
  {
    ImageHead(id, d) + ImageMiddle(d) + ImageTail(d)
  }

  /** The first six values of the image: the id, the enabled flag and the date and hour. */
  function ImageHead(id: Int64, d: AlarmData): (items: seq<ParcelItem>)
    ensures |items| == 6
  {
    [PLong(id), PInt(BoolToInt(d.enabled)), PInt(d.year), PInt(d.month), PInt(d.day), PInt(d.hour)]
  }

  /** The next six: minutes, repeat days, vibrate and flash, label and ringtone. */
  function ImageMiddle(d: AlarmData): (items: seq<ParcelItem>)
    ensures |items| == 6
  {
    [PInt(d.minutes), PInt(GetBits(d.daysOfWeek)), PInt(BoolToInt(d.vibrate)),
     PInt(BoolToInt(d.flash)), PString(d.alarmLabel), PUri(d.alert)]
  }

  /** The last six: delete-after-use, the four durations and volume, and the holiday option. */
  function ImageTail(d: AlarmData): (items: seq<ParcelItem>)
    ensures |items| == 6
  {
    [PInt(BoolToInt(d.deleteAfterUse)), PInt(d.autoSilenceDuration), PInt(d.snoozeDuration),
     PInt(d.crescendoDuration), PInt(d.alarmVolume), PInt(d.holidayOption)]
  }

  /** What Alarm(Parcel) reads from a parcel positioned at `start`: the id and the content. */
  function ParcelRead(items: seq<ParcelItem>, start: nat): (Int64, AlarmData)
  {
    (LongAt(items, start),
     AlarmData(
       IntAt(items, start + 1) == 1,
       IntAt(items, start + 2), IntAt(items, start + 3), IntAt(items, start + 4),
       IntAt(items, start + 5), IntAt(items, start + 6),
       FromBits(IntAt(items, start + 7)),
       IntAt(items, start + 8) == 1, IntAt(items, start + 9) == 1,
       StringAt(items, start + 10), UriAt(items, start + 11),
       IntAt(items, start + 12) == 1,
       IntAt(items, start + 13), IntAt(items, start + 14), IntAt(items, start + 15),
       IntAt(items, start + 16), IntAt(items, start + 17)))
  }

  /**
   * Alarm(Parcel) reads back exactly what writeToParcel wrote, wherever in the parcel it
   * was written: the id and every field, the holiday option included.
   */
  lemma ParcelRoundTrip(prefix: seq<ParcelItem>, id: Int64, d: AlarmData, suffix: seq<ParcelItem>)
    ensures ParcelRead(prefix + ParcelImage(id, d) + suffix, |prefix|) == (id, d)
  {
    var items := prefix + ParcelImage(id, d) + suffix;
    assert items[|prefix|..|prefix| + PARCEL_SIZE] == ParcelImage(id, d);
    ReadImage(items, |prefix|, id, d);
  }

  /** Reading from the start of an image gives back the id and content it was written from. */
  lemma ReadImage(items: seq<ParcelItem>, start: nat, id: Int64, d: AlarmData)
    requires start + PARCEL_SIZE <= |items| && items[start..start + PARCEL_SIZE] == ParcelImage(id, d)
    ensures ParcelRead(items, start) == (id, d)
  {
    var image := ParcelImage(id, d);
    forall k | 0 <= k < PARCEL_SIZE
      ensures items[start + k] == image[k]
    {
      assert items[start..start + PARCEL_SIZE][k] == items[start + k];
    }
  }

  // writeToParcel and Alarm(Parcel) in three runs of six values each.

  method WriteHead(p: Parcel, id: Int64, d: AlarmData)
    requires p.Valid()
    modifies p
    ensures p.Valid() && p.items == old(p.items) + ImageHead(id, d) && p.pos == old(p.pos)
  {
    p.WriteLong(id);
    p.WriteInt(BoolToInt(d.enabled));
    p.WriteInt(d.year);
    p.WriteInt(d.month);
    p.WriteInt(d.day);
    p.WriteInt(d.hour);
  }

  method WriteMiddle(p: Parcel, d: AlarmData)
    requires p.Valid()
    modifies p
    ensures p.Valid() && p.items == old(p.items) + ImageMiddle(d) && p.pos == old(p.pos)
  {
    p.WriteInt(d.minutes);
    p.WriteInt(GetBits(d.daysOfWeek));
    p.WriteInt(BoolToInt(d.vibrate));
    p.WriteInt(BoolToInt(d.flash));
    p.WriteString(d.alarmLabel);
    p.WriteUri(d.alert);
  }

  method WriteTail(p: Parcel, d: AlarmData)
    requires p.Valid()
    modifies p
    ensures p.Valid() && p.items == old(p.items) + ImageTail(d) && p.pos == old(p.pos)
  {
    p.WriteInt(BoolToInt(d.deleteAfterUse));
    p.WriteInt(d.autoSilenceDuration);
    p.WriteInt(d.snoozeDuration);
    p.WriteInt(d.crescendoDuration);
    p.WriteInt(d.alarmVolume);
    p.WriteInt(d.holidayOption);
  }

  method ReadHead(p: Parcel, ghost contents: seq<ParcelItem>, ghost start: nat)
      returns (id: Int64, enabled: Int32, year: Int32, month: Int32, day: Int32, hour: Int32)
    requires p.Valid() && p.items == contents && start <= |contents| && p.pos == PosAfter(contents, start, 0)
    modifies p
    ensures p.Valid() && p.items == contents && p.pos == PosAfter(contents, start, 6)
    ensures id == LongAt(contents, start) && enabled == IntAt(contents, start + 1)
    ensures year == IntAt(contents, start + 2) && month == IntAt(contents, start + 3)
    ensures day == IntAt(contents, start + 4) && hour == IntAt(contents, start + 5)
  {
    id := p.ReadLongAt(contents, start, 0);
    enabled := p.ReadIntAt(contents, start, 1);
    year := p.ReadIntAt(contents, start, 2);
    month := p.ReadIntAt(contents, start, 3);
    day := p.ReadIntAt(contents, start, 4);
    hour := p.ReadIntAt(contents, start, 5);
  }

  method ReadMiddle(p: Parcel, ghost contents: seq<ParcelItem>, ghost start: nat)
      returns (minutes: Int32, bits: Int32, vibrate: Int32, flash: Int32, alarmLabel: string, alert: Option<Uri>)
    requires p.Valid() && p.items == contents && start <= |contents| && p.pos == PosAfter(contents, start, 6)
    modifies p
    ensures p.Valid() && p.items == contents && p.pos == PosAfter(contents, start, 12)
    ensures minutes == IntAt(contents, start + 6) && bits == IntAt(contents, start + 7)
    ensures vibrate == IntAt(contents, start + 8) && flash == IntAt(contents, start + 9)
    ensures alarmLabel == StringAt(contents, start + 10) && alert == UriAt(contents, start + 11)
  {
    minutes := p.ReadIntAt(contents, start, 6);
    bits := p.ReadIntAt(contents, start, 7);
    vibrate := p.ReadIntAt(contents, start, 8);
    flash := p.ReadIntAt(contents, start, 9);
    alarmLabel := p.ReadStringAt(contents, start, 10);
    alert := p.ReadUriAt(contents, start, 11);
  }

  method ReadTail(p: Parcel, ghost contents: seq<ParcelItem>, ghost start: nat)
      returns (deleteAfterUse: Int32, autoSilenceDuration: Int32, snoozeDuration: Int32,
               crescendoDuration: Int32, alarmVolume: Int32, holidayOption: Int32)
    requires p.Valid() && p.items == contents && start <= |contents| && p.pos == PosAfter(contents, start, 12)
    modifies p
    ensures p.Valid() && p.items == contents && p.pos == PosAfter(contents, start, 18)
    ensures deleteAfterUse == IntAt(contents, start + 12) && autoSilenceDuration == IntAt(contents, start + 13)
    ensures snoozeDuration == IntAt(contents, start + 14) && crescendoDuration == IntAt(contents, start + 15)
    ensures alarmVolume == IntAt(contents, start + 16) && holidayOption == IntAt(contents, start + 17)
  {
    deleteAfterUse := p.ReadIntAt(contents, start, 12);
    autoSilenceDuration := p.ReadIntAt(contents, start, 13);
    snoozeDuration := p.ReadIntAt(contents, start, 14);
    crescendoDuration := p.ReadIntAt(contents, start, 15);
    alarmVolume := p.ReadIntAt(contents, start, 16);
    holidayOption := p.ReadIntAt(contents, start, 17);
  }

  /** ParcelRead in terms of the eighteen values read one after the other. */
  lemma ParcelReadOf(items: seq<ParcelItem>, start: nat, id: Int64, enabled: Int32, year: Int32,
                     month: Int32, day: Int32, hour: Int32, minutes: Int32, bits: Int32, vibrate: Int32,
                     flash: Int32, alarmLabel: string, alert: Option<Uri>, deleteAfterUse: Int32,
                     autoSilenceDuration: Int32, snoozeDuration: Int32, crescendoDuration: Int32,
                     alarmVolume: Int32, holidayOption: Int32)
    requires id == LongAt(items, start) && enabled == IntAt(items, start + 1)
    requires year == IntAt(items, start + 2) && month == IntAt(items, start + 3)
    requires day == IntAt(items, start + 4) && hour == IntAt(items, start + 5)
    requires minutes == IntAt(items, start + 6) && bits == IntAt(items, start + 7)
    requires vibrate == IntAt(items, start + 8) && flash == IntAt(items, start + 9)
    requires alarmLabel == StringAt(items, start + 10) && alert == UriAt(items, start + 11)
    requires deleteAfterUse == IntAt(items, start + 12) && autoSilenceDuration == IntAt(items, start + 13)
    requires snoozeDuration == IntAt(items, start + 14) && crescendoDuration == IntAt(items, start + 15)
    requires alarmVolume == IntAt(items, start + 16) && holidayOption == IntAt(items, start + 17)
    ensures ParcelRead(items, start) == (id, AlarmData(enabled == 1, year, month, day, hour, minutes,
      FromBits(bits), vibrate == 1, flash == 1, alarmLabel, alert, deleteAfterUse == 1, autoSilenceDuration,
      snoozeDuration, crescendoDuration, alarmVolume, holidayOption))
  {
  }

  // ---------------------------------------------------------------------------
  // When an alarm rings

  /** getNextAlarmTime as written: a repeating alarm's schedule, or a one-shot alarm's. */
  function NextAlarmTime(d: AlarmData, now: DateTime): DateTime
  {
    if IsRepeating(d.daysOfWeek) then NextRepeating(d.daysOfWeek, d.hour, d.minutes, now)
    else NextOneShot(Date(d.year, d.month, d.day), d.hour, d.minutes, now)
  }

  /** getNextAlarmTime as evidently intended: a repeating alarm's time has seconds and milliseconds zero. */
  function CorrectedNextAlarmTime(d: AlarmData, now: DateTime): DateTime
  {
    if IsRepeating(d.daysOfWeek) then NextRepeatingZeroed(d.daysOfWeek, d.hour, d.minutes, now)
    else NextOneShot(Date(d.year, d.month, d.day), d.hour, d.minutes, now)
  }

  /**
   * The ringtone createInstanceAfter gives the instance: a random pick when the alarm's
   * ringtone is the "random" or the "random custom" marker, the alarm's own otherwise.
   * RingtoneUtils is not part of this model: its answers and picks are parameters.
   */
  datatype RingtonePick = RingtonePick(
    isRandom: bool, isRandomCustom: bool, randomRingtone: Option<Uri>, randomCustomRingtone: Option<Uri>)

  function InstanceRingtone(alert: Option<Uri>, pick: RingtonePick): (u: Option<Uri>)
    ensures !pick.isRandom && !pick.isRandomCustom ==> u == alert
  {
    if pick.isRandom then pick.randomRingtone
    else if pick.isRandomCustom then pick.randomCustomRingtone
    else alert
  }

  /**
   * The content of the instance createInstanceAfter makes for alarm `id` at time t:
   * a new silent instance of that alarm at t's minute, with the alarm's vibrate, flash,
   * label, durations and volume, the chosen ringtone, and no holiday option.
   */
  function InstanceFor(id: Int64, d: AlarmData, t: DateTime, ringtone: Option<Uri>): (r: AlarmInstances.InstanceData)
    requires IsCalendar(t)
    ensures AlarmInstances.AlarmTimeOf(r) == DateTime(t.date, t.hour, t.minute, 0, 0)
    ensures r.alarmId == Some(id) && r.alarmState == AlarmInstances.SILENT_STATE
    ensures r.vibrate == d.vibrate && r.flash == d.flash && r.alarmLabel == d.alarmLabel && r.ringtone == ringtone
    ensures r.autoSilenceDuration == d.autoSilenceDuration && r.snoozeDuration == d.snoozeDuration
    ensures r.crescendoDuration == d.crescendoDuration && r.alarmVolume == d.alarmVolume
  {
    AlarmInstances.NewInstanceData(t, Some(id)).(
      vibrate := d.vibrate, flash := d.flash, alarmLabel := d.alarmLabel, ringtone := ringtone,
      autoSilenceDuration := d.autoSilenceDuration, snoozeDuration := d.snoozeDuration,
      crescendoDuration := d.crescendoDuration, alarmVolume := d.alarmVolume)
  }

  /**
   * The instance createInstanceAfter builds once the time is known: a new instance of
   * alarm `id` at t, then the alarm's settings and the chosen ringtone copied onto it.
   */
  method NewInstance(id: Int64, d: AlarmData, t: DateTime, ringtone: Option<Uri>)
      returns (result: AlarmInstances.AlarmInstance)
    requires IsCalendar(t)
    ensures fresh(result) && result.mId == AlarmInstances.INVALID_ID
    ensures result.Data() == InstanceFor(id, d, t, ringtone)
  {
    result := new AlarmInstances.AlarmInstance(t, Some(id));
    CopySettings(result, d, ringtone);
  }

  /** The settings createInstanceAfter copies from the alarm onto its new instance. */
  method CopySettings(instance: AlarmInstances.AlarmInstance, d: AlarmData, ringtone: Option<Uri>)
    modifies instance
    ensures instance.mId == old(instance.mId)
    ensures instance.Data() == old(instance.Data()).(
      vibrate := d.vibrate, flash := d.flash, alarmLabel := d.alarmLabel, ringtone := ringtone,
      autoSilenceDuration := d.autoSilenceDuration, snoozeDuration := d.snoozeDuration,
      crescendoDuration := d.crescendoDuration, alarmVolume := d.alarmVolume)
  {
    instance.mVibrate := d.vibrate;
    instance.mFlash := d.flash;
    instance.mLabel := d.alarmLabel;
    instance.mRingtone := ringtone;
    instance.mAutoSilenceDuration := d.autoSilenceDuration;
    instance.mSnoozeDuration := d.snoozeDuration;
    instance.mCrescendoDuration := d.crescendoDuration;
    instance.mAlarmVolume := d.alarmVolume;
  }

  /** The correction changes only the seconds and milliseconds of the next alarm time. */
  lemma CorrectedKeepsMinute(d: AlarmData, now: DateTime)
    requires IsCalendar(NextAlarmTime(d, now))
    ensures var t, c := NextAlarmTime(d, now), CorrectedNextAlarmTime(d, now);
      IsCalendar(c) && c.date == t.date && c.hour == t.hour && c.minute == t.minute
  {
  }

  /** An instance only takes the date, hour and minute of the time it is made for. */
  lemma InstanceForMinuteOnly(id: Int64, d: AlarmData, t1: DateTime, t2: DateTime, ringtone: Option<Uri>)
    requires IsCalendar(t1) && IsCalendar(t2)
    requires t1.date == t2.date && t1.hour == t2.hour && t1.minute == t2.minute
    ensures InstanceFor(id, d, t1, ringtone) == InstanceFor(id, d, t2, ringtone)
  {
  }

  /**
   * The instance of a repeating alarm rings strictly after now, at most a week ahead,
   * on a day of the alarm's week: its minute-only time is the corrected next time.
   */
  lemma RepeatingInstanceIsAhead(id: Int64, d: AlarmData, now: DateTime, ringtone: Option<Uri>)
    requires IsRepeating(d.daysOfWeek) && Valid(now) && ValidTimeOfDay(d.hour, d.minutes)
    requires IsCalendar(CorrectedNextAlarmTime(d, now))
    ensures var t := AlarmInstances.AlarmTimeOf(InstanceFor(id, d, CorrectedNextAlarmTime(d, now), ringtone));
      && Millis(now) < Millis(t) <= Millis(now) + 7 * MILLIS_PER_DAY
      && t.hour == d.hour && t.minute == d.minutes
      && IsBitOn(d.daysOfWeek, DayOfWeek(t.date))
  {
    NextRepeatingZeroedIsAhead(d.daysOfWeek, d.hour, d.minutes, now);
    NextRepeatingIsAhead(d.daysOfWeek, d.hour, d.minutes, now);
  }

  /** The instance of a one-shot alarm with a valid stored date rings exactly at the next alarm time. */
  lemma OneShotInstanceIsNextTime(id: Int64, d: AlarmData, now: DateTime, ringtone: Option<Uri>)
    requires !IsRepeating(d.daysOfWeek) && ValidDate(Date(d.year, d.month, d.day)) && ValidTimeOfDay(d.hour, d.minutes)
    requires IsCalendar(NextAlarmTime(d, now))
    ensures AlarmInstances.AlarmTimeOf(InstanceFor(id, d, CorrectedNextAlarmTime(d, now), ringtone)) == NextAlarmTime(d, now)
  {
    OneShotMovesAtMostOnce(Date(d.year, d.month, d.day), d.hour, d.minutes, now);
    AddDaysKeepsTime(OneShotBase(Date(d.year, d.month, d.day), d.hour, d.minutes), 1);
  }

  // ---------------------------------------------------------------------------
  // The alarm object

  class Alarm {
    var id: Int64
    var enabled: bool
    var year: Int32
    var month: Int32
    var day: Int32
    var hour: Int32
    var minutes: Int32
    var daysOfWeek: Weekdays
    var vibrate: bool
    var flash: bool
    var alarmLabel: string
    var alert: Option<Uri>
    var deleteAfterUse: bool
    var autoSilenceDuration: Int32
    var snoozeDuration: Int32
    var crescendoDuration: Int32
    var alarmVolume: Int32
    var holidayOption: Int32
    var instanceState: Int32
    var instanceId: Int32

    /** Everything but the id and the joined instance columns, as the row stores it. */
    function Data(): AlarmData
      reads this
    {
      AlarmData(enabled, year, month, day, hour, minutes, daysOfWeek, vibrate, flash, alarmLabel,
        alert, deleteAfterUse, autoSilenceDuration, snoozeDuration, crescendoDuration, alarmVolume,
        holidayOption)
    }

    /** Alarm(year, month, day, hour, minutes): an unsaved alarm with the defaults of NewAlarmData. */
    constructor (year: Int32, month: Int32, day: Int32, hour: Int32, minutes: Int32, settingsRingtone: Option<Uri>)
      ensures id == INVALID_ID && Data() == NewAlarmData(year, month, day, hour, minutes, settingsRingtone)
      ensures instanceState == 0 && instanceId == 0
    {
      id := INVALID_ID;
      enabled := false;
      this.year, this.month, this.day := year, month, day;
      this.hour, this.minutes := hour, minutes;
      vibrate, flash := true, true;
      daysOfWeek := NONE;
      alarmLabel := "";
      alert := settingsRingtone;
      deleteAfterUse := false;
      autoSilenceDuration, snoozeDuration, crescendoDuration := 10, 10, 0;
      alarmVolume := 11;
      holidayOption := 0;
      instanceState, instanceId := 0, 0;
    }

    /** Alarm(): a default alarm on today's date at midnight. */
    constructor Today(today: DateTime, settingsRingtone: Option<Uri>)
      requires IsCalendar(today)
      ensures id == INVALID_ID
      ensures Data() == NewAlarmData(today.date.year, today.date.month, today.date.day, 0, 0, settingsRingtone)
    {
      id := INVALID_ID;
      enabled := false;
      year, month, day := today.date.year, today.date.month, today.date.day;
      hour, minutes := 0, 0;
      vibrate, flash := true, true;
      daysOfWeek := NONE;
      alarmLabel := "";
      alert := settingsRingtone;
      deleteAfterUse := false;
      autoSilenceDuration, snoozeDuration, crescendoDuration := 10, 10, 0;
      alarmVolume := 11;
      holidayOption := 0;
      instanceState, instanceId := 0, 0;
    }

    /** The backup/restore constructor: every field as given, the ringtone parsed from its string. */
    constructor Restore(id: Int64, enabled: bool, year: Int32, month: Int32, day: Int32, hour: Int32,
                        minutes: Int32, vibrate: bool, flash: bool, daysOfWeek: Weekdays, alarmLabel: string,
                        alert: string, deleteAfterUse: bool, autoSilenceDuration: Int32,
                        snoozeDuration: Int32, crescendoDuration: Int32, alarmVolume: Int32,
                        holidayOption: Int32)
      ensures this.id == id
      ensures Data() == AlarmData(enabled, year, month, day, hour, minutes, daysOfWeek, vibrate, flash,
        alarmLabel, Some(Uri(alert)), deleteAfterUse, autoSilenceDuration, snoozeDuration,
        crescendoDuration, alarmVolume, holidayOption)
    {
      this.id := id;
      this.enabled := enabled;
      this.year, this.month, this.day := year, month, day;
      this.hour, this.minutes := hour, minutes;
      this.vibrate, this.flash := vibrate, flash;
      this.daysOfWeek := daysOfWeek;
      this.alarmLabel := alarmLabel;
      this.alert := Some(Uri(alert));
      this.deleteAfterUse := deleteAfterUse;
      this.autoSilenceDuration, this.snoozeDuration := autoSilenceDuration, snoozeDuration;
      this.crescendoDuration, this.alarmVolume := crescendoDuration, alarmVolume;
      this.holidayOption := holidayOption;
      instanceState, instanceId := 0, 0;
    }

    /** Alarm(Cursor), reading a row of QUERY_COLUMNS. */
    constructor FromCursor(row: seq<SqlValue>, defaultRingtone: Uri)
      requires |row| == COLUMN_COUNT
      ensures id == CursorId(row) && Data() == CursorData(row, defaultRingtone)
    {
      id := CellInt64(row[ID_INDEX]);
      enabled := CellInt32(row[ENABLED_INDEX]) == 1;
      year := CellInt32(row[YEAR_INDEX]);
      month := CellInt32(row[MONTH_INDEX]);
      day := CellInt32(row[DAY_INDEX]);
      hour := CellInt32(row[HOUR_INDEX]);
      minutes := CellInt32(row[MINUTES_INDEX]);
      daysOfWeek := FromBits(CellInt32(row[DAYS_OF_WEEK_INDEX]));
      vibrate := CellInt32(row[VIBRATE_INDEX]) == 1;
      flash := CellInt32(row[FLASH_INDEX]) == 1;
      alarmLabel := CellText(row[LABEL_INDEX]);
      deleteAfterUse := CellInt32(row[DELETE_AFTER_USE_INDEX]) == 1;
      autoSilenceDuration := CellInt32(row[AUTO_SILENCE_DURATION_INDEX]);
      snoozeDuration := CellInt32(row[SNOOZE_DURATION_INDEX]);
      crescendoDuration := CellInt32(row[CRESCENDO_DURATION_INDEX]);
      alarmVolume := CellInt32(row[ALARM_VOLUME_INDEX]);
      holidayOption := CellInt32(row[HOLIDAY_OPTION_INDEX]);
      if row[RINGTONE_INDEX] == SqlNull {
        alert := Some(defaultRingtone);
      } else {
        alert := Some(Uri(CellText(row[RINGTONE_INDEX])));
      }
      instanceState, instanceId := 0, 0;
    }

    /**
     * Alarm(Parcel): eighteen reads, in the order writeToParcel writes. The joined
     * instance state and id are not in the parcel and stay 0.
     */
    constructor FromParcel(p: Parcel)
      requires p.Valid()
      modifies p
      ensures p.Valid() && p.items == old(p.items) && p.pos == PosAfter(p.items, old(p.pos), PARCEL_SIZE)
      ensures (id, Data()) == ParcelRead(p.items, old(p.pos))
      ensures instanceState == 0 && instanceId == 0
    {
      ghost var start, contents := p.pos, p.items;
      assert PosAfter(p.items, start, 0) == start;
      var id', enabled', year', month', day', hour' := ReadHead(p, contents, start);
      var minutes', bits, vibrate', flash', label', alert' := ReadMiddle(p, contents, start);
      var deleteAfterUse', autoSilenceDuration', snoozeDuration', crescendoDuration', alarmVolume',
        holidayOption' := ReadTail(p, contents, start);
      ParcelReadOf(contents, start, id', enabled', year', month', day', hour', minutes', bits, vibrate',
        flash', label', alert', deleteAfterUse', autoSilenceDuration', snoozeDuration', crescendoDuration',
        alarmVolume', holidayOption');
      id := id';
      enabled := enabled' == 1;
      year, month, day, hour, minutes := year', month', day', hour', minutes';
      daysOfWeek := FromBits(bits);
      vibrate, flash := vibrate' == 1, flash' == 1;
      alarmLabel := label';
      alert := alert';
      deleteAfterUse := deleteAfterUse' == 1;
      autoSilenceDuration, snoozeDuration := autoSilenceDuration', snoozeDuration';
      crescendoDuration, alarmVolume := crescendoDuration', alarmVolume';
      holidayOption := holidayOption';
      instanceState, instanceId := 0, 0;
    }

    /** writeToParcel: appends ParcelImage and leaves the read position alone. */
    method WriteToParcel(p: Parcel)
      requires p.Valid()
      modifies p
      ensures p.Valid() && p.items == old(p.items) + ParcelImage(id, Data()) && p.pos == old(p.pos)
    {
      var d := Data();
      WriteHead(p, id, d);
      WriteMiddle(p, d);
      WriteTail(p, d);
    }

    /** canPreemptivelyDismiss: the joined instance is snoozed or showing its upcoming notification. */
    predicate CanPreemptivelyDismiss()
      reads this
    {
      instanceState == AlarmInstances.SNOOZE_STATE || instanceState == AlarmInstances.NOTIFICATION_STATE
    }

    /**
     * getNextAlarmTime, as the succession of Calendar updates it makes. Reading the time
     * in milliseconds or a field of a Calendar whose fields were set normalises them
     * (Normalize); the Calendar the caller receives is read the same way.
     */
    method GetNextAlarmTime(currentTime: DateTime) returns (next: DateTime)
      ensures next == NextAlarmTime(Data(), currentTime)
    {
      var cal: DateTime;
      if IsRepeating(daysOfWeek) {
        cal := FromMillis(Millis(currentTime));
        cal := cal.(hour := hour, minute := minutes);
        if Millis(cal) <= Millis(currentTime) {
          cal := AddDays(cal, 1);
        } else {
          cal := Normalize(cal);
        }
        var addDays := DistanceToNextDay(daysOfWeek, DayOfWeek(cal.date));
        if addDays > 0 {
          cal := AddDays(cal, addDays);
        }
        cal := cal.(hour := hour, minute := minutes);
        next := Normalize(cal);
      } else {
        // The Calendar's seconds and milliseconds were cleared first; every other field is set here.
        cal := DateTime(Date(year, month, day), hour, minutes, 0, 0);
        cal := Normalize(cal);
        if Millis(cal) <= Millis(currentTime) {
          cal := AddDays(cal, 1);
        }
        next := cal;
      }
    }

    /** getPreviousAlarmTime, as the Calendar updates it makes; null for a one-shot alarm. */
    method GetPreviousAlarmTime() returns (previous: Option<DateTime>)
      ensures previous == PreviousFiring(daysOfWeek, Date(year, month, day), hour, minutes)
    {
      var cal := DateTime(Date(year, month, day), hour, minutes, 0, 0);
      cal := Normalize(cal);
      var subtractDays := DistanceToPreviousDay(daysOfWeek, DayOfWeek(cal.date));
      if subtractDays > 0 {
        cal := AddDays(cal, -subtractDays);
        previous := Some(cal);
      } else {
        previous := None;
      }
    }

    /**
     * createInstanceAfter: a new instance of this alarm at getNextAlarmTime(time). The
     * instance keeps only the minute, so its content is the same under the corrected
     * next time.
     */
    method CreateInstanceAfter(time: DateTime, pick: RingtonePick) returns (result: AlarmInstances.AlarmInstance)
      requires IsCalendar(NextAlarmTime(Data(), time))
      ensures fresh(result) && result.mId == AlarmInstances.INVALID_ID
      ensures IsCalendar(CorrectedNextAlarmTime(Data(), time))
      ensures result.Data() == InstanceFor(id, Data(), CorrectedNextAlarmTime(Data(), time), InstanceRingtone(alert, pick))
    {
      var nextInstanceTime := GetNextAlarmTime(time);
      ghost var d := Data();
      var ringtone := InstanceRingtone(alert, pick);
      CorrectedKeepsMinute(d, time);
      InstanceForMinuteOnly(id, d, nextInstanceTime, CorrectedNextAlarmTime(d, time), ringtone);
      result := NewInstance(id, Data(), nextInstanceTime, ringtone);
    }

    /**
     * isDateInThePast, with both Calendar.getInstance() calls reading `now`: the stored
     * date at now's time of day (milliseconds cleared) is before now.
     */
    predicate IsDateInThePast(now: DateTime)
      reads this
    {
      Millis(DateTime(Date(year, month, day), now.hour, now.minute, now.second, 0)) < Millis(now)
    }

    /** isSpecifiedDate: the stored date is not today's. */
    predicate IsSpecifiedDate(now: DateTime)
      reads this
    {
      year != now.date.year || month != now.date.month || day != now.date.day
    }
  }

  /**
   * canPreemptivelyDismiss holds exactly in the snoozed and the notification state; in
   * particular never for a silent instance, nor for an alarm without one (state 0).
   */
  lemma CanPreemptivelyDismissStates(alarm: Alarm)
    ensures alarm.CanPreemptivelyDismiss() <==>
      alarm.instanceState in {AlarmInstances.SNOOZE_STATE, AlarmInstances.NOTIFICATION_STATE}
    ensures alarm.instanceState == AlarmInstances.SILENT_STATE ==> !alarm.CanPreemptivelyDismiss()
  {
  }

  /**
   * isDateInThePast on a valid stored date: the date is before today, or it is today and
   * now is not on a whole second (today's date therefore almost always counts as past).
   */
  lemma DateInThePastByDay(alarm: Alarm, now: DateTime)
    requires Valid(now) && ValidDate(Date(alarm.year, alarm.month, alarm.day))
    ensures alarm.IsDateInThePast(now) <==>
      DayNumber(Date(alarm.year, alarm.month, alarm.day)) < DayNumber(now.date)
      || (DayNumber(Date(alarm.year, alarm.month, alarm.day)) == DayNumber(now.date) && now.milli > 0)
  {
    var a := DateTime(Date(alarm.year, alarm.month, alarm.day), now.hour, now.minute, now.second, 0);
    var k := DayNumber(a.date) - DayNumber(now.date);
    assert Millis(a) - Millis(now) == k * MILLIS_PER_DAY - now.milli;
    if k < 0 {
      assert k * MILLIS_PER_DAY <= -MILLIS_PER_DAY;
    } else if k > 0 {
      assert k * MILLIS_PER_DAY >= MILLIS_PER_DAY;
    }
  }

  /** isSpecifiedDate on a valid stored date: the stored day is another day than today. */
  lemma SpecifiedDateIsAnotherDay(alarm: Alarm, now: DateTime)
    requires Valid(now) && ValidDate(Date(alarm.year, alarm.month, alarm.day))
    ensures alarm.IsSpecifiedDate(now) <==> DayNumber(Date(alarm.year, alarm.month, alarm.day)) != DayNumber(now.date)
  {
    if DayNumber(Date(alarm.year, alarm.month, alarm.day)) == DayNumber(now.date) {
      DayNumberInjective(Date(alarm.year, alarm.month, alarm.day), now.date);
    }
  }

  /** isSpecifiedDateTomorrow: the date is the one Calendar.add(DAY_OF_YEAR, 1) gives from today. */
  predicate IsSpecifiedDateTomorrow(alarmYear: Int32, alarmMonth: Int32, alarmDayOfMonth: Int32, today: DateTime)
  {
    var tomorrow := AddDays(today, 1);
    alarmYear == tomorrow.date.year && alarmMonth == tomorrow.date.month && alarmDayOfMonth == tomorrow.date.day
  }

  /** isSpecifiedDateTomorrow holds exactly for the valid date whose day number follows today's. */
  lemma SpecifiedDateTomorrowIsNextDay(alarmYear: Int32, alarmMonth: Int32, alarmDayOfMonth: Int32, today: DateTime)
    requires Valid(today)
    ensures IsSpecifiedDateTomorrow(alarmYear, alarmMonth, alarmDayOfMonth, today) <==>
      ValidDate(Date(alarmYear, alarmMonth, alarmDayOfMonth))
      && DayNumber(Date(alarmYear, alarmMonth, alarmDayOfMonth)) == DayNumber(today.date) + 1
  {
    var d := Date(alarmYear, alarmMonth, alarmDayOfMonth);
    var tomorrow := AddDays(today, 1);
    AddDaysKeepsTime(today, 1);
    if ValidDate(d) && DayNumber(d) == DayNumber(today.date) + 1 {
      DayNumberInjective(d, tomorrow.date);
    }
  }

  /**
   * isTomorrow: false for a snoozed alarm; otherwise whether the alarm's minute of the
   * day (Java `int` arithmetic) is not after that of now, read through the calendar.
   */
  predicate IsTomorrow(alarm: Alarm, now: DateTime)
    reads alarm
  {
    if alarm.instanceState == AlarmInstances.SNOOZE_STATE then false
    else
      var totalAlarmMinutes := Wrap32(Wrap32(alarm.hour * 60) + alarm.minutes);
      var current := Normalize(now);
      var totalNowMinutes := Wrap32(Wrap32(current.hour * 60) + current.minute);
      totalAlarmMinutes <= totalNowMinutes
  }

  /**
   * isTomorrow agrees with the schedule: unless snoozed, it holds exactly when an alarm
   * ringing every day at this time would next ring tomorrow rather than today.
   */
  lemma IsTomorrowMeansNextDay(alarm: Alarm, now: DateTime)
    requires alarm.instanceState != AlarmInstances.SNOOZE_STATE
    requires Valid(now) && ValidTimeOfDay(alarm.hour, alarm.minutes)
    ensures IsTomorrow(alarm, now) <==> DayNumber(NextRepeating(ALL, alarm.hour, alarm.minutes, now).date) == DayNumber(now.date) + 1
    ensures !IsTomorrow(alarm, now) <==> DayNumber(NextRepeating(ALL, alarm.hour, alarm.minutes, now).date) == DayNumber(now.date)
  {
    NormalizeValid(now);
    NextRepeatingOnDay(ALL, alarm.hour, alarm.minutes, now);
    DailyFiresOnSearchStart(alarm.hour, alarm.minutes, now);
  }

  /** An alarm ringing every day rings on the first day of its search. */
  lemma DailyFiresOnSearchStart(hour: int, minute: int, now: DateTime)
    ensures NextRepeatingDay(ALL, hour, minute, now) == SearchStart(hour, minute, now)
  {
    NextRepeatingDayIsFirstSet(ALL, hour, minute, now);
    var first := SearchStart(hour, minute, now);
    AllHasEveryDay(WeekdayOf(first));
  }

  /** A snoozed alarm is never "tomorrow". */
  lemma SnoozedIsNotTomorrow(alarm: Alarm, now: DateTime)
    requires alarm.instanceState == AlarmInstances.SNOOZE_STATE
    ensures !IsTomorrow(alarm, now)
  {
  }

  // ---------------------------------------------------------------------------
  // The alarms table

  /** The alarms table, in rowid order. */
  class AlarmStore {
    var rows: seq<Row<AlarmData>>

    predicate Valid()
      reads this
    {
      Sorted(rows)
    }

    constructor ()
      ensures Valid() && rows == []
    {
      rows := [];
    }
  }

  /** updateAlarm: nothing for an unsaved alarm, otherwise its row takes the alarm's content. */
  method UpdateAlarm(store: AlarmStore, alarm: Alarm)
    requires store.Valid()
    modifies store
    ensures store.Valid()
    ensures store.rows == if alarm.id == INVALID_ID then old(store.rows)
                          else Replace(old(store.rows), alarm.id, alarm.Data())
  {
    if alarm.id == INVALID_ID {
      return;
    }
    ReplaceKeepsOrder(store.rows, alarm.id, alarm.Data());
    store.rows := Replace(store.rows, alarm.id, alarm.Data());
  }

  /**
   * deleteAlarm: false and nothing deleted for INVALID_ID; otherwise the row goes, and
   * the result says whether exactly one row was deleted, i.e. whether the alarm existed.
   */
  method DeleteAlarm(store: AlarmStore, alarmId: Int64) returns (deleted: bool)
    requires store.Valid()
    modifies store
    ensures store.Valid()
    ensures store.rows == if alarmId == INVALID_ID then old(store.rows) else Remove(old(store.rows), alarmId)
    ensures deleted <==> alarmId != INVALID_ID && alarmId in Ids(old(store.rows))
  {
    if alarmId == INVALID_ID {
      return false;
    }
    CountIdAtMostOne(store.rows, alarmId);
    var deletedRows := CountId(store.rows, alarmId);
    store.rows := Remove(store.rows, alarmId);
    deleted := deletedRows == 1;
  }
}
