/**
 * One scheduled occurrence of an alarm (com.best.deskclock.provider.AlarmInstance) and
 * the instances table it lives in. An instance records the civil date and time it fires
 * at (seconds are always zero), its presentation settings copied from its alarm, the id
 * of that alarm (which may be null) and its state in the alarm state machine.
 *
 * The table is reached through a ContentResolver in the app; here it is an
 * `InstanceStore` holding the rows in rowid order, and the static methods of the Java
 * class take that store in place of the resolver.
 */
module AlarmInstances {
  import opened Common
  import opened Calendar
  import opened Tables

  /** Instances start with this id until they are saved. */
  const INVALID_ID: Int64 := -1

  /** Hours after the alarm time during which a missed notification stays up. */
  const MISSED_TIME_TO_LIVE_HOUR_OFFSET := 12

  // Instance states (ClockContract.InstancesColumns, which is not part of this model).
  // Only their being distinct matters below.
  const SILENT_STATE: Int32 := 0
  const NOTIFICATION_STATE: Int32 := 1
  const SNOOZE_STATE: Int32 := 4

  // Auto-silence settings with a special meaning (PreferencesDefaultValues, which is
  // not part of this model); every other value is a number of minutes.
  const ALARM_TIMEOUT_NEVER: Int32 := -1
  const ALARM_TIMEOUT_END_OF_RINGTONE: Int32 := -2

  // ---------------------------------------------------------------------------
  // Columns

  datatype InstanceColumn =
    | Id | Year | Month | Day | Hour | Minutes | Label | Vibrate | Flash | Ringtone
    | AlarmId | AlarmState | AutoSilenceDuration | SnoozeDuration | CrescendoDuration | AlarmVolume

  /** The projection every instance query asks for. */
  const QUERY_COLUMNS: seq<InstanceColumn> :=
    [Id, Year, Month, Day, Hour, Minutes, Label, Vibrate, Flash, Ringtone,
     AlarmId, AlarmState, AutoSilenceDuration, SnoozeDuration, CrescendoDuration, AlarmVolume]

  const ID_INDEX := 0
  const YEAR_INDEX := 1
  const MONTH_INDEX := 2
  const DAY_INDEX := 3
  const HOUR_INDEX := 4
  const MINUTES_INDEX := 5
  const LABEL_INDEX := 6
  const VIBRATE_INDEX := 7
  const FLASH_INDEX := 8
  const RINGTONE_INDEX := 9
  const ALARM_ID_INDEX := 10
  const ALARM_STATE_INDEX := 11
  const AUTO_SILENCE_DURATION_INDEX := 12
  const SNOOZE_DURATION_INDEX := 13
  const CRESCENDO_DURATION_INDEX := 14
  const ALARM_VOLUME_INDEX := 15
  const COLUMN_COUNT := ALARM_VOLUME_INDEX + 1

  /** Each *_INDEX constant is the position of its column in QUERY_COLUMNS, and no column repeats. */
  lemma IndicesMatchQueryColumns()
    ensures |QUERY_COLUMNS| == COLUMN_COUNT
    ensures QUERY_COLUMNS[ID_INDEX] == Id && QUERY_COLUMNS[YEAR_INDEX] == Year
    ensures QUERY_COLUMNS[MONTH_INDEX] == Month && QUERY_COLUMNS[DAY_INDEX] == Day
    ensures QUERY_COLUMNS[HOUR_INDEX] == Hour && QUERY_COLUMNS[MINUTES_INDEX] == Minutes
    ensures QUERY_COLUMNS[LABEL_INDEX] == Label && QUERY_COLUMNS[VIBRATE_INDEX] == Vibrate
    ensures QUERY_COLUMNS[FLASH_INDEX] == Flash && QUERY_COLUMNS[RINGTONE_INDEX] == Ringtone
    ensures QUERY_COLUMNS[ALARM_ID_INDEX] == AlarmId && QUERY_COLUMNS[ALARM_STATE_INDEX] == AlarmState
    ensures QUERY_COLUMNS[AUTO_SILENCE_DURATION_INDEX] == AutoSilenceDuration
    ensures QUERY_COLUMNS[SNOOZE_DURATION_INDEX] == SnoozeDuration
    ensures QUERY_COLUMNS[CRESCENDO_DURATION_INDEX] == CrescendoDuration
    ensures QUERY_COLUMNS[ALARM_VOLUME_INDEX] == AlarmVolume
    ensures forall i, j :: 0 <= i < j < |QUERY_COLUMNS| ==> QUERY_COLUMNS[i] != QUERY_COLUMNS[j]
  {
  }

  // ---------------------------------------------------------------------------
  // Row content

  /** Everything an instance row stores besides its id. */
  datatype InstanceData = InstanceData(
    year: Int32, month: Int32, day: Int32, hour: Int32, minute: Int32,
    alarmLabel: string, vibrate: bool, flash: bool, ringtone: Option<Uri>,
    alarmId: Option<Int64>, alarmState: Int32,
    autoSilenceDuration: Int32, snoozeDuration: Int32, crescendoDuration: Int32, alarmVolume: Int32)

  /** The civil fields an instance stores, at second and millisecond zero. */
  function StoredTime(d: InstanceData): DateTime
  {
    DateTime(Date(d.year, d.month, d.day), d.hour, d.minute, 0, 0)
  }

  /**
   * getAlarmTime: a Calendar set to the stored fields with seconds and milliseconds
   * cleared, i.e. the instant those fields denote.
   */
  function AlarmTimeOf(d: InstanceData): (t: DateTime)
    ensures Valid(t) && Millis(t) == Millis(StoredTime(d))
  {
    Normalize(StoredTime(d))
  }

  /** The fields setAlarmTime copies out of a Calendar. */
  function WithTime(d: InstanceData, c: DateTime): InstanceData
    requires IsCalendar(c)
  {
    d.(year := c.date.year, month := c.date.month, day := c.date.day, hour := c.hour, minute := c.minute)
  }

  /**
   * setAlarmTime followed by getAlarmTime gives back the Calendar's date, hour and
   * minute, with seconds and milliseconds zero.
   */
  lemma SetThenGetAlarmTime(d: InstanceData, c: DateTime)
    requires IsCalendar(c)
    ensures AlarmTimeOf(WithTime(d, c)) == DateTime(c.date, c.hour, c.minute, 0, 0)
  {
    NormalizeValid(DateTime(c.date, c.hour, c.minute, 0, 0));
  }

  /** The content of an instance the two Calendar constructors create. */
  function NewInstanceData(c: DateTime, alarmId: Option<Int64>): (d: InstanceData)
    requires IsCalendar(c)
    ensures AlarmTimeOf(d) == DateTime(c.date, c.hour, c.minute, 0, 0)
    ensures d.alarmId == alarmId && d.alarmState == SILENT_STATE && d.ringtone.None?
  {
    var d := InstanceData(c.date.year, c.date.month, c.date.day, c.hour, c.minute,
      "", false, false, None, alarmId, SILENT_STATE, 10, 10, 0, 11);
    SetThenGetAlarmTime(d, c);
    d
  }

  /** The value createContentValues puts under column c. */
  function Cell(id: Int64, d: InstanceData, c: InstanceColumn): SqlValue
  {
    match c
    case Id => SqlInt(id)
    case Year => SqlInt(d.year)
    case Month => SqlInt(d.month)
    case Day => SqlInt(d.day)
    case Hour => SqlInt(d.hour)
    case Minutes => SqlInt(d.minute)
    case Label => SqlText(d.alarmLabel)
    case Vibrate => SqlInt(BoolToInt(d.vibrate))
    case Flash => SqlInt(BoolToInt(d.flash))
    case Ringtone => if d.ringtone.None? then SqlNull else SqlText(d.ringtone.value.text)
    case AlarmId => if d.alarmId.None? then SqlNull else SqlInt(d.alarmId.value)
    case AlarmState => SqlInt(d.alarmState)
    case AutoSilenceDuration => SqlInt(d.autoSilenceDuration)
    case SnoozeDuration => SqlInt(d.snoozeDuration)
    case CrescendoDuration => SqlInt(d.crescendoDuration)
    case AlarmVolume => SqlInt(d.alarmVolume)
  }

  /**
   * AlarmInstance.createContentValues, for an instance with id `id` and content `d`:
   * every column, except the id when the instance is unsaved (the insert then picks one).
   */
  function ContentValues(id: Int64, d: InstanceData): (cv: map<InstanceColumn, SqlValue>)
    ensures Id in cv <==> id != INVALID_ID
    ensures Ringtone in cv && (cv[Ringtone] == SqlNull <==> d.ringtone.None?)
    ensures AlarmId in cv && (cv[AlarmId] == SqlNull <==> d.alarmId.None?)
  {
    assert QUERY_COLUMNS[RINGTONE_INDEX] == Ringtone && QUERY_COLUMNS[ALARM_ID_INDEX] == AlarmId;
    map c | c in QUERY_COLUMNS && (c != Id || id != INVALID_ID) :: Cell(id, d, c)
  }

  /** The cursor row a query with QUERY_COLUMNS returns for a row written with values `cv`. */
  function Project(cv: map<InstanceColumn, SqlValue>): (row: seq<SqlValue>)
    ensures |row| == COLUMN_COUNT
  {
    seq(|QUERY_COLUMNS|, i requires 0 <= i < |QUERY_COLUMNS| =>
      if QUERY_COLUMNS[i] in cv then cv[QUERY_COLUMNS[i]] else SqlNull)
  }

  /** The id AlarmInstance(Cursor) reads. */
  function CursorId(row: seq<SqlValue>): Int64
    requires |row| == COLUMN_COUNT
  {
    CellInt64(row[ID_INDEX])
  }

  /**
   * The content AlarmInstance(Cursor) reads: booleans are `== 1`, a NULL ringtone
   * becomes the default alarm ringtone and a NULL alarm id stays null.
   */
  function CursorData(row: seq<SqlValue>, defaultRingtone: Uri): (d: InstanceData)
    requires |row| == COLUMN_COUNT
    ensures d.ringtone.Some?
    ensures d.alarmId.None? <==> row[ALARM_ID_INDEX] == SqlNull
  {
    InstanceData(
      CellInt32(row[YEAR_INDEX]), CellInt32(row[MONTH_INDEX]), CellInt32(row[DAY_INDEX]),
      CellInt32(row[HOUR_INDEX]), CellInt32(row[MINUTES_INDEX]), CellText(row[LABEL_INDEX]),
      CellInt32(row[VIBRATE_INDEX]) == 1, CellInt32(row[FLASH_INDEX]) == 1,
      (if row[RINGTONE_INDEX] == SqlNull then Some(defaultRingtone) else Some(Uri(CellText(row[RINGTONE_INDEX])))),
      (if row[ALARM_ID_INDEX] == SqlNull then None else Some(CellInt64(row[ALARM_ID_INDEX]))),
      CellInt32(row[ALARM_STATE_INDEX]),
      CellInt32(row[AUTO_SILENCE_DURATION_INDEX]), CellInt32(row[SNOOZE_DURATION_INDEX]),
      CellInt32(row[CRESCENDO_DURATION_INDEX]), CellInt32(row[ALARM_VOLUME_INDEX]))
  }

  /** What reading a stored instance back gives: a null ringtone becomes the default one, nothing else changes. */
  function WithDefaultRingtone(d: InstanceData, defaultRingtone: Uri): (r: InstanceData)
    ensures r.ringtone.Some? && (d.ringtone.Some? ==> r == d)
    ensures r.(ringtone := d.ringtone) == d
  {
    if d.ringtone.None? then d.(ringtone := Some(defaultRingtone)) else d
  }

  /**
   * The two encodings agree: a saved instance read back through QUERY_COLUMNS and the
   * *_INDEX constants has its id and content, except that a null ringtone comes back as
   * the default one.
   */
  lemma ContentValuesReadBack(id: Int64, d: InstanceData, defaultRingtone: Uri)
    requires id != INVALID_ID
    ensures CursorId(Project(ContentValues(id, d))) == id
    ensures CursorData(Project(ContentValues(id, d)), defaultRingtone) == WithDefaultRingtone(d, defaultRingtone)
  {
    ProjectedCells(id, d);
    ReadRow(Project(ContentValues(id, d)), id, d, defaultRingtone);
  }

  /** Reading a row that holds each column's value at its position. */
  lemma ReadRow(row: seq<SqlValue>, id: Int64, d: InstanceData, defaultRingtone: Uri)
    requires |row| == COLUMN_COUNT
    requires forall i :: 0 <= i < COLUMN_COUNT ==> row[i] == Cell(id, d, QUERY_COLUMNS[i])
    ensures CursorId(row) == id
    ensures CursorData(row, defaultRingtone) == WithDefaultRingtone(d, defaultRingtone)
  {
    IndicesMatchQueryColumns();
    assert row[ID_INDEX] == SqlInt(id);
    assert row[YEAR_INDEX] == SqlInt(d.year) && row[MONTH_INDEX] == SqlInt(d.month);
    assert row[DAY_INDEX] == SqlInt(d.day) && row[HOUR_INDEX] == SqlInt(d.hour);
    assert row[MINUTES_INDEX] == SqlInt(d.minute) && row[LABEL_INDEX] == SqlText(d.alarmLabel);
    assert row[VIBRATE_INDEX] == SqlInt(BoolToInt(d.vibrate)) && row[FLASH_INDEX] == SqlInt(BoolToInt(d.flash));
    assert row[RINGTONE_INDEX] == Cell(id, d, Ringtone) && row[ALARM_ID_INDEX] == Cell(id, d, AlarmId);
    assert row[ALARM_STATE_INDEX] == SqlInt(d.alarmState);
    assert row[AUTO_SILENCE_DURATION_INDEX] == SqlInt(d.autoSilenceDuration);
    assert row[SNOOZE_DURATION_INDEX] == SqlInt(d.snoozeDuration);
    assert row[CRESCENDO_DURATION_INDEX] == SqlInt(d.crescendoDuration);
    assert row[ALARM_VOLUME_INDEX] == SqlInt(d.alarmVolume);
  }

  /** A saved instance's cursor row holds, at each position, the value of that position's column. */
  lemma ProjectedCells(id: Int64, d: InstanceData)
    requires id != INVALID_ID
    ensures forall i :: 0 <= i < COLUMN_COUNT ==> Project(ContentValues(id, d))[i] == Cell(id, d, QUERY_COLUMNS[i])
  {
  }

  // ---------------------------------------------------------------------------
  // The instance object

  class AlarmInstance {
    var mId: Int64
    var mYear: Int32
    var mMonth: Int32
    var mDay: Int32
    var mHour: Int32
    var mMinute: Int32
    var mLabel: string
    var mVibrate: bool
    var mFlash: bool
    var mRingtone: Option<Uri>
    var mAlarmId: Option<Int64>
    var mAlarmState: Int32
    var mAutoSilenceDuration: Int32
    var mSnoozeDuration: Int32
    var mCrescendoDuration: Int32
    var mAlarmVolume: Int32

    /** Everything but the id, as the row stores it. */
    function Data(): InstanceData
      reads this
    {
      InstanceData(mYear, mMonth, mDay, mHour, mMinute, mLabel, mVibrate, mFlash, mRingtone,
        mAlarmId, mAlarmState, mAutoSilenceDuration, mSnoozeDuration, mCrescendoDuration, mAlarmVolume)
    }

    /** AlarmInstance(Calendar, Long): an unsaved, silent instance of the given alarm at the Calendar's minute. */
    constructor (calendar: DateTime, alarmId: Option<Int64>)
      requires IsCalendar(calendar)
      ensures mId == INVALID_ID && Data() == NewInstanceData(calendar, alarmId)
    {
      mId := INVALID_ID;
      mYear, mMonth, mDay := calendar.date.year, calendar.date.month, calendar.date.day;
      mHour, mMinute := calendar.hour, calendar.minute;
      mLabel := "";
      mVibrate, mFlash := false, false;
      mRingtone := None;
      mAlarmId := alarmId;
      mAlarmState := SILENT_STATE;
      mAutoSilenceDuration, mSnoozeDuration, mCrescendoDuration, mAlarmVolume := 10, 10, 0, 11;
    }

    /** AlarmInstance(Calendar): as above, with a null alarm id. */
    constructor WithoutAlarm(calendar: DateTime)
      requires IsCalendar(calendar)
      ensures mId == INVALID_ID && Data() == NewInstanceData(calendar, None)
    {
      mId := INVALID_ID;
      mYear, mMonth, mDay := calendar.date.year, calendar.date.month, calendar.date.day;
      mHour, mMinute := calendar.hour, calendar.minute;
      mLabel := "";
      mVibrate, mFlash := false, false;
      mRingtone := None;
      mAlarmId := None;
      mAlarmState := SILENT_STATE;
      mAutoSilenceDuration, mSnoozeDuration, mCrescendoDuration, mAlarmVolume := 10, 10, 0, 11;
    }

    /** AlarmInstance(AlarmInstance): a field-by-field copy. */
    constructor Copy(instance: AlarmInstance)
      ensures mId == instance.mId && Data() == instance.Data()
    {
      mId := instance.mId;
      mYear, mMonth, mDay := instance.mYear, instance.mMonth, instance.mDay;
      mHour, mMinute := instance.mHour, instance.mMinute;
      mLabel := instance.mLabel;
      mVibrate, mFlash := instance.mVibrate, instance.mFlash;
      mRingtone := instance.mRingtone;
      mAlarmId := instance.mAlarmId;
      mAlarmState := instance.mAlarmState;
      mAutoSilenceDuration, mSnoozeDuration := instance.mAutoSilenceDuration, instance.mSnoozeDuration;
      mCrescendoDuration, mAlarmVolume := instance.mCrescendoDuration, instance.mAlarmVolume;
    }

    /** AlarmInstance(Cursor), reading a row of QUERY_COLUMNS. */
    constructor FromCursor(row: seq<SqlValue>, defaultRingtone: Uri)
      requires |row| == COLUMN_COUNT
      ensures mId == CursorId(row) && Data() == CursorData(row, defaultRingtone)
    {
      mId := CellInt64(row[ID_INDEX]);
      mYear := CellInt32(row[YEAR_INDEX]);
      mMonth := CellInt32(row[MONTH_INDEX]);
      mDay := CellInt32(row[DAY_INDEX]);
      mHour := CellInt32(row[HOUR_INDEX]);
      mMinute := CellInt32(row[MINUTES_INDEX]);
      mLabel := CellText(row[LABEL_INDEX]);
      mVibrate := CellInt32(row[VIBRATE_INDEX]) == 1;
      mFlash := CellInt32(row[FLASH_INDEX]) == 1;
      mAutoSilenceDuration := CellInt32(row[AUTO_SILENCE_DURATION_INDEX]);
      mSnoozeDuration := CellInt32(row[SNOOZE_DURATION_INDEX]);
      mCrescendoDuration := CellInt32(row[CRESCENDO_DURATION_INDEX]);
      mAlarmVolume := CellInt32(row[ALARM_VOLUME_INDEX]);
      if row[RINGTONE_INDEX] == SqlNull {
        mRingtone := Some(defaultRingtone);
      } else {
        mRingtone := Some(Uri(CellText(row[RINGTONE_INDEX])));
      }
      mAlarmId := None;
      if row[ALARM_ID_INDEX] != SqlNull {
        mAlarmId := Some(CellInt64(row[ALARM_ID_INDEX]));
      }
      mAlarmState := CellInt32(row[ALARM_STATE_INDEX]);
    }

    /** getAlarmTime. */
    function AlarmTime(): (t: DateTime)
      reads this
      ensures Valid(t) && Millis(t) == Millis(DateTime(Date(mYear, mMonth, mDay), mHour, mMinute, 0, 0))
    {
      AlarmTimeOf(Data())
    }

    /** setAlarmTime: copies the Calendar's year, month, day, hour and minute; nothing else changes. */
    method SetAlarmTime(calendar: DateTime)
      requires IsCalendar(calendar)
      modifies this
      ensures mId == old(mId) && Data() == WithTime(old(Data()), calendar)
      ensures AlarmTime() == DateTime(calendar.date, calendar.hour, calendar.minute, 0, 0)
    {
      SetThenGetAlarmTime(Data(), calendar);
      mYear, mMonth, mDay := calendar.date.year, calendar.date.month, calendar.date.day;
      mHour, mMinute := calendar.hour, calendar.minute;
    }

    /** getMissedTimeToLive: twelve hours after the alarm time. */
    function MissedTimeToLive(): (t: DateTime)
      reads this
      ensures Valid(t) && Millis(t) == Millis(AlarmTime()) + MISSED_TIME_TO_LIVE_HOUR_OFFSET * MILLIS_PER_HOUR
    {
      AddMillis(AlarmTime(), MISSED_TIME_TO_LIVE_HOUR_OFFSET * MILLIS_PER_HOUR)
    }

    /**
     * getNotificationTime: the alarm time moved back by the reminder setting, in minutes.
     * The negation is Java `int` negation, so Integer.MIN_VALUE stays negative.
     */
    function NotificationTime(reminderMinutes: Int32): (t: DateTime)
      reads this
      ensures Valid(t)
      ensures reminderMinutes != -0x8000_0000 ==>
        Millis(t) == Millis(AlarmTime()) - reminderMinutes * MILLIS_PER_MINUTE
      ensures reminderMinutes == -0x8000_0000 ==>
        Millis(t) == Millis(AlarmTime()) + reminderMinutes * MILLIS_PER_MINUTE
    {
      AddMillis(AlarmTime(), Wrap32(-(reminderMinutes as int)) * MILLIS_PER_MINUTE)
    }

    /**
     * getTimeout: null when auto-silence is off; otherwise the alarm time plus the
     * ringtone's length (in ms) for "end of ringtone", or plus the setting in minutes.
     */
    function Timeout(ringtoneDurationMillis: Int32): (t: Option<DateTime>)
      reads this
      ensures t.None? <==> mAutoSilenceDuration == ALARM_TIMEOUT_NEVER
      ensures t.Some? ==> Valid(t.value)
      ensures t.Some? && mAutoSilenceDuration == ALARM_TIMEOUT_END_OF_RINGTONE ==>
        Millis(t.value) == Millis(AlarmTime()) + ringtoneDurationMillis
      ensures t.Some? && mAutoSilenceDuration != ALARM_TIMEOUT_END_OF_RINGTONE ==>
        Millis(t.value) == Millis(AlarmTime()) + mAutoSilenceDuration * MILLIS_PER_MINUTE
    {
      if mAutoSilenceDuration == ALARM_TIMEOUT_NEVER then None
      else if mAutoSilenceDuration == ALARM_TIMEOUT_END_OF_RINGTONE then
        Some(AddMillis(AlarmTime(), ringtoneDurationMillis))
      else Some(AddMillis(AlarmTime(), mAutoSilenceDuration * MILLIS_PER_MINUTE))
    }
  }

  /** A missed notification outlives the alarm by exactly half a day on the clock face. */
  lemma MissedTimeToLiveOnTheClock(instance: AlarmInstance)
    requires ValidDate(Date(instance.mYear, instance.mMonth, instance.mDay))
    requires ValidTimeOfDay(instance.mHour, instance.mMinute)
    ensures var t := instance.MissedTimeToLive();
      t.minute == instance.mMinute && t.hour == (instance.mHour + 12) % 24 && t.second == 0 && t.milli == 0
  {
    var a := instance.AlarmTime();
    NormalizeValid(StoredTime(instance.Data()));
    var t := instance.MissedTimeToLive();
    var h := (instance.mHour + 12) % 24;
    var u := DateTime(DateOf(DayNumber(a.date) + (instance.mHour + 12) / 24), h, instance.mMinute, 0, 0);
    assert Millis(u) == Millis(t);
    MillisInjective(u, t);
  }

  // ---------------------------------------------------------------------------
  // The instances table

  const MAX_ROWID := 0x7fff_ffff_ffff_ffff

  /** The instances table, in rowid order, and the log of instances handed to AlarmStateManager.unregisterInstance. */
  class InstanceStore {
    var rows: seq<Row<InstanceData>>
    var unregistered: seq<int>

    /** Ids are distinct saved ids (never INVALID_ID) that fit a Java `long`. */
    predicate Valid()
      reads this
    {
      Sorted(rows) && forall r :: r in rows ==> 1 <= r.id <= MAX_ROWID
    }

    constructor ()
      ensures Valid() && rows == [] && unregistered == []
    {
      rows := [];
      unregistered := [];
    }
  }

  /** The selection `ALARM_ID = <alarmId>`; written with a null alarm id it matches no row. */
  function OfAlarm(alarmId: Option<Int64>): Row<InstanceData> -> bool
  {
    (r: Row<InstanceData>) => alarmId.Some? && r.data.alarmId == alarmId
  }

  /** Calendar.equals between alarm times: the same instant. */
  function AtInstant(ms: int): Row<InstanceData> -> bool
  {
    (r: Row<InstanceData>) => InstantOf(r.data) == ms
  }

  /** The instant of an instance's alarm time (Calendar.getTimeInMillis of getAlarmTime). */
  function InstantOf(d: InstanceData): (ms: int)
    ensures ms == Millis(AlarmTimeOf(d))
  {
    Millis(StoredTime(d))
  }

  /** The id a row inserted with these values receives: its own, or one past the largest (a fresh rowid). */
  function InsertedId(rows: seq<Row<InstanceData>>, id: Int64): (n: int)
    ensures id != INVALID_ID ==> n == id
    ensures id == INVALID_ID ==> n !in Ids(rows) && forall r :: r in rows ==> r.id < n
    ensures id == INVALID_ID && rows == [] ==> n == 1
  {
    if id != INVALID_ID then id else if rows == [] then 1 else MaxId(rows) + 1
  }

  /** updateInstance: nothing for an unsaved instance, otherwise its row takes the instance's content. */
  method UpdateInstance(store: InstanceStore, instance: AlarmInstance)
    requires store.Valid()
    modifies store
    ensures store.Valid() && store.unregistered == old(store.unregistered)
    ensures store.rows == if instance.mId == INVALID_ID then old(store.rows)
                          else Replace(old(store.rows), instance.mId, instance.Data())
  {
    if instance.mId == INVALID_ID {
      return;
    }
    ReplaceKeepsOrder(store.rows, instance.mId, instance.Data());
    store.rows := Replace(store.rows, instance.mId, instance.Data());
  }

  /** deleteInstance: nothing for INVALID_ID, otherwise the row with that id goes. */
  method DeleteInstance(store: InstanceStore, instanceId: Int64)
    requires store.Valid()
    modifies store
    ensures store.Valid() && store.unregistered == old(store.unregistered)
    ensures store.rows == if instanceId == INVALID_ID then old(store.rows) else Remove(old(store.rows), instanceId)
  {
    if instanceId == INVALID_ID {
      return;
    }
    store.rows := Remove(store.rows, instanceId);
  }

  /**
   * The insert at the end of addInstance: the row takes the instance's own id, or a fresh
   * rowid when it has none, and the instance takes the id the insert reports. An insert
   * whose explicit id is already taken fails, and the provider then reports INVALID_ID.
   */
  method InsertInstance(store: InstanceStore, instance: AlarmInstance)
    requires store.Valid()
    requires instance.mId == INVALID_ID || 1 <= instance.mId
    requires instance.mId == INVALID_ID ==> MaxId(store.rows) < MAX_ROWID
    modifies store, instance
    ensures store.Valid() && store.unregistered == old(store.unregistered)
    ensures instance.Data() == old(instance.Data())
    ensures var id := InsertedId(old(store.rows), old(instance.mId));
      if id in Ids(old(store.rows)) then instance.mId == INVALID_ID && store.rows == old(store.rows)
      else instance.mId == id && store.rows == Insert(old(store.rows), Row(id, instance.Data()))
  {
    var id := InsertedId(store.rows, instance.mId);
    if id in Ids(store.rows) {
      instance.mId := INVALID_ID;
      return;
    }
    assert id >= 1 by {
      if store.rows != [] {
        assert store.rows[0] in store.rows;
      }
    }
    var rows := Insert(store.rows, Row(id, instance.Data()));
    assert forall r :: r in rows ==> 1 <= r.id <= MAX_ROWID;
    store.rows := rows;
    instance.mId := id;
  }

  /**
   * addInstance. Among the instances of the same alarm (none when the alarm id is null)
   * the first whose alarm time equals the new one is a duplicate: the new instance takes
   * its id and overwrites that row, and the table keeps its size. Otherwise the instance
   * is inserted as InsertInstance describes.
   */
  method AddInstance(store: InstanceStore, instance: AlarmInstance)
    requires store.Valid()
    requires instance.mId == INVALID_ID || 1 <= instance.mId
    requires instance.mId == INVALID_ID ==> MaxId(store.rows) < MAX_ROWID
    modifies store, instance
    ensures store.Valid() && store.unregistered == old(store.unregistered)
    ensures instance.Data() == old(instance.Data())
    ensures var others := Filter(old(store.rows), OfAlarm(old(instance.mAlarmId)));
      var k := FirstIndex(others, AtInstant(InstantOf(old(instance.Data()))));
      if k != -1 then
        instance.mId == others[k].id && store.rows == Replace(old(store.rows), others[k].id, instance.Data())
      else
        var id := InsertedId(old(store.rows), old(instance.mId));
        if id in Ids(old(store.rows)) then instance.mId == INVALID_ID && store.rows == old(store.rows)
        else instance.mId == id && store.rows == Insert(old(store.rows), Row(id, instance.Data()))
  {
    var others := Filter(store.rows, OfAlarm(instance.mAlarmId));
    var k := FindFirst(others, AtInstant(InstantOf(instance.Data())));
    if k != -1 {
      ghost var d := instance.Data();
      instance.mId := others[k].id;
      assert instance.Data() == d;
      UpdateInstance(store, instance);
      return;
    }
    InsertInstance(store, instance);
  }

  /**
   * The body of deleteOtherInstances' loop at position i of the scan: an instance other
   * than the kept one is logged as unregistered and its row (only its row) is deleted.
   */
  method VisitInstance(store: InstanceStore, ghost before: seq<Row<InstanceData>>, ghost log0: seq<int>,
                       instances: seq<Row<InstanceData>>, i: nat, instanceId: Int64)
    requires i < |instances| && instances[i] in before
    requires store.Valid() && Sorted(before) && forall x :: x in before ==> 1 <= x.id <= MAX_ROWID
    requires forall x :: x in store.rows <==> x in before && !(x in instances[..i] && x.id != instanceId)
    requires store.unregistered == log0 + IdsOtherThan(instances[..i], instanceId)
    modifies store
    ensures store.Valid()
    ensures forall x :: x in store.rows <==> x in before && !(x in instances[..i + 1] && x.id != instanceId)
    ensures store.unregistered == log0 + IdsOtherThan(instances[..i + 1], instanceId)
  {
    var instance := instances[i];
    VisitStep(before, instances, i, store.rows, instanceId);
    IdsOtherThanSnoc(log0, instances[..i], instance, instanceId);
    if instance.id != instanceId {
      store.unregistered := store.unregistered + [instance.id];
      DeleteInstance(store, instance.id);
    }
  }

  /**
   * deleteOtherInstances: each instance of the alarm other than `instanceId` is handed
   * to the state manager to unregister and then deleted; every other row stays.
   */
  method DeleteOtherInstances(store: InstanceStore, alarmId: Int64, instanceId: Int64)
    requires store.Valid()
    modifies store
    ensures store.Valid()
    ensures forall x :: x in store.rows <==>
      x in old(store.rows) && !(x.data.alarmId == Some(alarmId) && x.id != instanceId)
    ensures store.unregistered == old(store.unregistered)
      + IdsOtherThan(Filter(old(store.rows), OfAlarm(Some(alarmId))), instanceId)
  {
    var instances := Filter(store.rows, OfAlarm(Some(alarmId)));
    ghost var before := store.rows;
    var i := 0;
    while i < |instances|
      invariant 0 <= i <= |instances|
      invariant store.Valid() && Sorted(before) && forall x :: x in before ==> 1 <= x.id <= MAX_ROWID
      invariant forall x :: x in store.rows <==> x in before && !(x in instances[..i] && x.id != instanceId)
      invariant store.unregistered == old(store.unregistered) + IdsOtherThan(instances[..i], instanceId)
    {
      VisitInstance(store, before, old(store.unregistered), instances, i, instanceId);
      i := i + 1;
    }
    assert instances[..i] == instances;
  }

  /**
   * getNextUpcomingInstanceByAlarmId: null when the alarm has no instance; otherwise the
   * instance with the earliest alarm time, the first in rowid order among equals
   * (a later one replaces the candidate only when strictly before it), as
   * AlarmInstance(Cursor) reads it back: a null ringtone comes back as the default one.
   */
  method NextUpcomingInstanceByAlarmId(store: InstanceStore, alarmId: Int64, defaultRingtone: Uri)
    returns (next: Option<Row<InstanceData>>)
    requires store.Valid()
    ensures next.None? <==> forall x :: x in store.rows ==> x.data.alarmId != Some(alarmId)
    ensures next.Some? ==> exists x :: x in store.rows && next.value == Row(x.id, WithDefaultRingtone(x.data, defaultRingtone))
    ensures next.Some? ==> next.value.data.alarmId == Some(alarmId) && next.value.data.ringtone.Some?
    ensures next.Some? ==> forall x :: x in store.rows && x.data.alarmId == Some(alarmId) ==>
      InstantOf(next.value.data) <= InstantOf(x.data)
    ensures next.Some? ==> forall x :: x in store.rows && x.data.alarmId == Some(alarmId) && x.id < next.value.id ==>
      InstantOf(next.value.data) < InstantOf(x.data)
  {
    var instances := Filter(store.rows, OfAlarm(Some(alarmId)));
    if |instances| == 0 {
      return None;
    }
    var best := ArgMin(instances, Instant);
    var found := instances[best];
    next := Some(Row(found.id, WithDefaultRingtone(found.data, defaultRingtone)));
    assert StoredTime(next.value.data) == StoredTime(found.data);
    assert found in store.rows;
    forall x | x in store.rows && x.data.alarmId == Some(alarmId)
      ensures InstantOf(instances[best].data) <= InstantOf(x.data)
      ensures x.id < instances[best].id ==> InstantOf(instances[best].data) < InstantOf(x.data)
    {
      assert OfAlarm(Some(alarmId))(x);
      var j :| 0 <= j < |instances| && instances[j] == x;
      assert Instant(instances[best]) <= Instant(instances[j]);
      if x.id < instances[best].id {
        assert j < best;
        assert Instant(instances[best]) < Instant(instances[j]);
      }
    }
  }

  /** The key getNextUpcomingInstanceByAlarmId compares rows by. */
  function Instant(r: Row<InstanceData>): int
  {
    InstantOf(r.data)
  }
}
