/**
 * The holiday table: Holiday records (a named range of days off and the compensation
 * workdays that go with it) and the four operations of HolidayDao over them.
 *
 * A Room entity's String and List fields may be null, and so may the table's columns:
 * such a value is None here. The compDays list is stored as text; the type converter
 * that does so is not part of this model and is taken to write a JSON array of
 * strings, as Gson does, with a null list stored as NULL.
 */
module Holidays {
  import opened Common
  import opened Tables
  import opened SqlText
  import opened DateText
  import opened Calendar

  /** Everything a holiday row holds besides its id. */
  datatype HolidayData = HolidayData(
    name: Option<string>, startDate: Option<string>, endDate: Option<string>,
    compDays: Option<seq<string>>)

  /** A Holiday as insertAll receives it: its id field (0 when unset) and its content. */
  datatype Entry = Entry(id: Int32, data: HolidayData)

  /** The Holiday entity. Only the id changes after construction; the other fields are final. */
  class Holiday {
    var id: Int32
    const name: Option<string>
    const startDate: Option<string>
    const endDate: Option<string>
    const compDays: Option<seq<string>>

    /**
     * Holiday(name, startDate, endDate, compDays): stores its arguments as given, with
     * no check on them (an end before the start or a null list is accepted); the id is
     * the int default, 0.
     */
    constructor (name: Option<string>, startDate: Option<string>, endDate: Option<string>,
                 compDays: Option<seq<string>>)
      ensures GetName() == name && GetStartDate() == startDate && GetEndDate() == endDate
      ensures GetCompDays() == compDays && GetId() == 0
    {
      this.name := name;
      this.startDate := startDate;
      this.endDate := endDate;
      this.compDays := compDays;
      id := 0;
    }

    function GetName(): Option<string> { name }

    function GetStartDate(): Option<string> { startDate }

    function GetEndDate(): Option<string> { endDate }

    function GetCompDays(): Option<seq<string>> { compDays }

    function GetId(): Int32
      reads this
    {
      id
    }

    /** setId: the id becomes `id`; the final fields cannot change. */
    method SetId(id: Int32)
      modifies this
      ensures GetId() == id
    {
      this.id := id;
    }

    function Data(): HolidayData
    {
      HolidayData(name, startDate, endDate, compDays)
    }

    function AsEntry(): Entry
      reads this
    {
      Entry(id, Data())
    }
  }

  // ---------------------------------------------------------------------------
  // The table and insertAll

  /**
   * The holiday table: its rows in rowid order, and the largest id it has ever held
   * (the key is declared autoGenerate, which Room creates as AUTOINCREMENT: a new id
   * is one more than any id the table has had).
   */
  datatype Contents = Contents(rows: seq<Row<HolidayData>>, highest: int)

  predicate Good(c: Contents)
  {
    Sorted(c.rows) && forall x :: x in c.rows ==> x.id <= c.highest
  }

  function Max(a: int, b: int): int
  {
    if a < b then b else a
  }

  /**
   * Inserting one holiday with OnConflictStrategy.REPLACE. An id of 0 counts as unset, so
   * the row gets the next id; any other id replaces the row that has it, if there is one.
   */
  function InsertOne(c: Contents, e: Entry): (r: Contents)
    requires Good(c)
    ensures Good(r) && r.highest >= c.highest
  {
    if e.id == 0 then
      var row := Row(c.highest + 1, e.data);
      assert row.id !in Ids(c.rows);
      Contents(Insert(c.rows, row), c.highest + 1)
    else
      var kept := Remove(c.rows, e.id as int);
      Contents(Insert(kept, Row(e.id as int, e.data)), Max(c.highest, e.id as int))
  }

  /** What insertAll does: the holidays inserted one after the other, in list order. */
  function InsertedAll(c: Contents, es: seq<Entry>): (r: Contents)
    requires Good(c)
    ensures Good(r) && r.highest >= c.highest
  {
    if es == [] then c else InsertOne(InsertedAll(c, es[..|es| - 1]), es[|es| - 1])
  }

  /** The id the row for entry e gets: the next one when e's id is unset, e's own otherwise. */
  function NewId(c: Contents, e: Entry): int
  {
    if e.id == 0 then c.highest + 1 else e.id as int
  }

  /**
   * One REPLACE insert: afterwards the row (id, data) is in the table and is the only row
   * with that id; a generated id was never used before; every row with another id is
   * exactly as it was.
   */
  lemma InsertOneEffect(c: Contents, e: Entry)
    requires Good(c)
    ensures var r, id := InsertOne(c, e), NewId(c, e);
      && Row(id, e.data) in r.rows
      && (forall x :: x in r.rows && x.id == id ==> x == Row(id, e.data))
      && (e.id == 0 ==> id !in Ids(c.rows))
      && (forall x: Row<HolidayData> :: x.id != id ==> (x in r.rows <==> x in c.rows))
  {
  }

  /** The id the k-th holiday of a list ends up with. */
  function IdOf(c: Contents, es: seq<Entry>, k: nat): int
    requires Good(c) && k < |es|
  {
    NewId(InsertedAll(c, es[..k]), es[k])
  }

  lemma PrefixOfPrefix(es: seq<Entry>, k: nat)
    requires k < |es|
    ensures es[..|es| - 1][..k] == es[..k]
  {
  }

  /**
   * After insertAll, every holiday of the list is in the table under the id it got,
   * unless a later holiday of the list named that same id and replaced it.
   */
  lemma {:induction false} InsertedAllHolds(c: Contents, es: seq<Entry>, k: nat)
    requires Good(c) && k < |es|
    requires forall j :: k < j < |es| ==> es[j].id as int != IdOf(c, es, k)
    ensures Row(IdOf(c, es, k), es[k].data) in InsertedAll(c, es).rows
    decreases |es|
  {
    var last := |es| - 1;
    var init := es[..last];
    assert InsertedAll(c, es) == InsertOne(InsertedAll(c, init), es[last]);
    if k == last {
      InsertOneEffect(InsertedAll(c, init), es[last]);
    } else {
      PrefixOfPrefix(es, k);
      assert IdOf(c, init, k) == IdOf(c, es, k);
      forall j | k < j < |init| ensures init[j].id as int != IdOf(c, init, k) {
        assert init[j] == es[j];
      }
      InsertedAllHolds(c, init, k);
      var before := InsertedAll(c, init);
      InsertOneEffect(before, es[last]);
      assert Row(IdOf(c, es, k), es[k].data).id <= before.highest;
    }
  }

  lemma InsertedAllStep(c: Contents, es: seq<Entry>, i: nat)
    requires Good(c) && i < |es|
    ensures InsertedAll(c, es[..i + 1]) == InsertOne(InsertedAll(c, es[..i]), es[i])
  {
    assert es[..i + 1][..i] == es[..i];
  }

  /** The ids insertAll is given explicitly. */
  function GivenIds(es: seq<Entry>): set<int>
  {
    set k | 0 <= k < |es| && es[k].id != 0 :: es[k].id as int
  }

  /**
   * insertAll leaves every row whose id no holiday of the list names as it was: a
   * generated id is never one the table already had.
   */
  lemma {:induction false} InsertedAllKeeps(c: Contents, es: seq<Entry>, x: Row<HolidayData>)
    requires Good(c) && x in c.rows && x.id !in GivenIds(es)
    ensures x in InsertedAll(c, es).rows
    decreases |es|
  {
    if es != [] {
      var last := |es| - 1;
      var init := es[..last];
      assert GivenIds(init) <= GivenIds(es) by {
        forall id | id in GivenIds(init) ensures id in GivenIds(es) {
          var k :| 0 <= k < |init| && init[k].id != 0 && init[k].id as int == id;
          assert es[k] == init[k];
        }
      }
      InsertedAllKeeps(c, init, x);
      var before := InsertedAll(c, init);
      InsertOneEffect(before, es[last]);
      if es[last].id != 0 {
        assert es[last].id as int in GivenIds(es);
      }
    }
  }

  /** insertAll adds nothing but the list's holidays: every row is an old one or carries a listed holiday. */
  lemma {:induction false} InsertedAllFrom(c: Contents, es: seq<Entry>, x: Row<HolidayData>)
    requires Good(c) && x in InsertedAll(c, es).rows
    ensures x in c.rows || exists k :: 0 <= k < |es| && es[k].data == x.data
    decreases |es|
  {
    if es != [] {
      var last := |es| - 1;
      var init := es[..last];
      var before := InsertedAll(c, init);
      InsertOneEffect(before, es[last]);
      if x.id != NewId(before, es[last]) {
        InsertedAllFrom(c, init, x);
        if !(x in c.rows) {
          var k :| 0 <= k < |init| && init[k].data == x.data;
          assert es[k] == init[k];
        }
      } else {
        assert es[last].data == x.data;
      }
    }
  }

  function Entries(holidays: seq<Holiday>): (es: seq<Entry>)
    reads set h | h in holidays
    ensures |es| == |holidays| && forall i :: 0 <= i < |holidays| ==> es[i] == holidays[i].AsEntry()
  {
    seq(|holidays|, i reads set h | h in holidays requires 0 <= i < |holidays| => holidays[i].AsEntry())
  }

  class HolidayTable {
    var rows: seq<Row<HolidayData>>
    var highest: int

    function State(): Contents
      reads this
    {
      Contents(rows, highest)
    }

    predicate Valid()
      reads this
    {
      Good(State())
    }

    constructor ()
      ensures Valid() && rows == [] && highest == 0
    {
      rows := [];
      highest := 0;
    }

    /** insertAll: each holiday of the list, in order, inserted with REPLACE. */
    method InsertAll(holidays: seq<Holiday>)
      requires Valid()
      modifies this
      ensures Valid() && State() == InsertedAll(old(State()), Entries(holidays))
    {
      ghost var es := Entries(holidays);
      ghost var start := State();
      var i := 0;
      while i < |holidays|
        invariant 0 <= i <= |holidays|
        invariant Valid() && State() == InsertedAll(start, es[..i])
      {
        Insert(holidays[i]);
        InsertedAllStep(start, es, i);
        i := i + 1;
      }
      assert es[..|holidays|] == es;
    }

    /** The insert of one holiday that insertAll repeats. */
    method Insert(h: Holiday)
      requires Valid()
      modifies this
      ensures Valid() && State() == InsertOne(old(State()), h.AsEntry())
    {
      if h.id == 0 {
        rows := Tables.Insert(rows, Row(highest + 1, h.Data()));
        highest := highest + 1;
      } else {
        rows := Tables.Insert(Remove(rows, h.id as int), Row(h.id as int, h.Data()));
        highest := Max(highest, h.id as int);
      }
    }

    // -------------------------------------------------------------------------
    // The queries: each reads the table and changes nothing.

    /** getHolidaysByYear: the rows whose startDate begins with `year`, in rowid order. */
    function HolidaysByYear(year: string): (r: seq<Row<HolidayData>>)
      reads this
      ensures forall x :: x in r <==> x in rows && StartsInYear(x.data, year)
    {
      Filter(rows, (x: Row<HolidayData>) => StartsInYear(x.data, year))
    }

    /** getHolidayByDate: the first row whose range holds `date`, ends included, or null. */
    function HolidayByDate(date: string): (r: Option<Row<HolidayData>>)
      reads this
      ensures r.None? <==> forall x :: x in rows ==> !Covers(x.data, date)
      ensures r.Some? ==> r.value in rows && Covers(r.value.data, date)
    {
      First(rows, (x: Row<HolidayData>) => Covers(x.data, date))
    }

    /** getWorkdayByDate: the first row whose stored compDays text contains `date`, or null. */
    function WorkdayByDate(date: string): (r: Option<Row<HolidayData>>)
      reads this
      ensures r.None? <==> forall x :: x in rows ==> !ListsDay(x.data, date)
      ensures r.Some? ==> r.value in rows && ListsDay(r.value.data, date)
    {
      First(rows, (x: Row<HolidayData>) => ListsDay(x.data, date))
    }
  }

  /** `SUBSTR(startDate, 1, 4) = year`; a NULL startDate matches nothing. */
  predicate StartsInYear(h: HolidayData, year: string)
  {
    h.startDate.Some? && Prefix(h.startDate.value, 4) == year
  }

  /** `date BETWEEN startDate AND endDate`; a NULL end matches nothing. */
  predicate Covers(h: HolidayData, date: string)
  {
    h.startDate.Some? && h.endDate.Some? && Between(date, h.startDate.value, h.endDate.value)
  }

  /** `compDays LIKE '%' || date || '%'`; a NULL compDays matches nothing. */
  predicate ListsDay(h: HolidayData, date: string)
  {
    h.compDays.Some? && Like(CompDaysText(h.compDays.value), "%" + date + "%")
  }

  /** The text a compDays list is stored as: `["d1","d2",...]`. */
  function CompDaysText(days: seq<string>): string
  {
    "[" + JoinQuoted(days) + "]"
  }

  function JoinQuoted(days: seq<string>): string
  {
    if days == [] then []
    else if |days| == 1 then Quoted(days[0])
    else Quoted(days[0]) + "," + JoinQuoted(days[1..])
  }

  function Quoted(s: string): string
  {
    "\"" + s + "\""
  }

  // ---------------------------------------------------------------------------
  // What the queries mean for dates written "YYYY-MM-DD"

  /**
   * For a holiday starting on a written date, getHolidaysByYear of a four-digit year
   * selects it exactly when it starts in that year; a range that starts the year before
   * and ends in this one is not selected.
   */
  lemma ByYearIsStartYear(h: HolidayData, start: Date, y: nat)
    requires Writable(start) && h.startDate == Some(Format(start)) && y <= 9999
    ensures StartsInYear(h, Digits(y, 4)) <==> start.year == y
  {
    YearOfFormat(start);
    WritableFits(start);
    assert y < Pow10(4) by {
      assert Pow10(4) == 10000;
    }
    DigitsOrder(start.year, y, 4);
  }

  /**
   * For a holiday whose ends are written dates, getHolidayByDate's BETWEEN holds for a
   * written date exactly when that day lies in the range, both ends included.
   */
  lemma CoversIsDayRange(h: HolidayData, start: Date, end: Date, day: Date)
    requires Writable(start) && Writable(end) && Writable(day)
    requires h.startDate == Some(Format(start)) && h.endDate == Some(Format(end))
    ensures Covers(h, Format(day)) <==> DayNumber(start) <= DayNumber(day) <= DayNumber(end)
  {
    FormatLessEq(start, day);
    FormatLessEq(day, end);
  }

  /** A holiday stored with its end before its start (nothing rejects one) covers no date at all. */
  lemma BackwardsRangeCoversNothing(h: HolidayData, date: string)
    requires h.startDate.Some? && h.endDate.Some? && TextLess(h.endDate.value, h.startDate.value)
    ensures !Covers(h, date)
  {
    var lo, hi := h.startDate.value, h.endDate.value;
    if Covers(h, date) {
      if lo == date && date == hi {
        TextLessIrreflexive(lo);
      } else if lo == date {
        TextLessTransitive(hi, lo, hi);
        TextLessIrreflexive(hi);
      } else if date == hi {
        TextLessTransitive(lo, hi, lo);
        TextLessIrreflexive(lo);
      } else {
        TextLessTransitive(lo, date, hi);
        TextLessTransitive(hi, lo, hi);
        TextLessIrreflexive(hi);
      }
    }
  }

  /** For a date with no wildcard, getWorkdayByDate's LIKE is a substring test (ASCII letters folded). */
  lemma ListsDayIsSubstring(h: HolidayData, date: string)
    requires Plain(date)
    ensures ListsDay(h, date) <==> h.compDays.Some? && ContainsFolded(CompDaysText(h.compDays.value), date)
  {
    if h.compDays.Some? {
      LikeInfix(CompDaysText(h.compDays.value), date);
    }
  }

  /** Every day listed in compDays is found by getWorkdayByDate's LIKE, when it holds no wildcard. */
  lemma ListedDayIsFound(h: HolidayData, i: nat)
    requires h.compDays.Some? && i < |h.compDays.value| && Plain(h.compDays.value[i])
    ensures ListsDay(h, h.compDays.value[i])
  {
    var days := h.compDays.value;
    var k := QuotedOccurs(days, i);
    assert CompDaysText(days)[k + 1..k + 1 + |days[i]|] == JoinQuoted(days)[k..k + |days[i]|];
    assert OccursAt(CompDaysText(days), days[i], k + 1);
    ListsDayIsSubstring(h, days[i]);
  }

  /** Where the i-th day appears in the joined list. */
  lemma {:induction false} QuotedOccurs(days: seq<string>, i: nat) returns (k: nat)
    requires i < |days|
    ensures k + |days[i]| <= |JoinQuoted(days)| && JoinQuoted(days)[k..k + |days[i]|] == days[i]
    decreases |days|
  {
    var q := Quoted(days[0]);
    assert q[1..1 + |days[0]|] == days[0];
    if i == 0 {
      k := 1;
      if |days| > 1 {
        assert JoinQuoted(days)[..|q|] == q;
      }
    } else {
      var k' := QuotedOccurs(days[1..], i - 1);
      var rest := JoinQuoted(days[1..]);
      assert JoinQuoted(days) == q + "," + rest;
      k := |q| + 1 + k';
      assert JoinQuoted(days)[k..k + |days[i]|] == rest[k'..k' + |days[i]|];
    }
  }

  /**
   * The match is on text, not on list elements: a query for "10-07" finds a holiday
   * whose only compensation day is "2023-10-07".
   */
  lemma PartOfListedDayMatches()
    ensures ListsDay(HolidayData(Some("National Day"), Some("2023-10-01"), Some("2023-10-03"), Some(["2023-10-07"])), "10-07")
  {
    var text := CompDaysText(["2023-10-07"]);
    assert text == "[\"2023-10-07\"]";
    assert text[7..12] == "10-07";
    assert OccursAt(text, "10-07", 7);
    ListsDayIsSubstring(HolidayData(Some("National Day"), Some("2023-10-01"), Some("2023-10-03"), Some(["2023-10-07"])), "10-07");
  }

  // ---------------------------------------------------------------------------
  // The holiday test's scenarios, on a table holding just the National Day record

  function NationalDay(compDays: Option<seq<string>>): HolidayData
  {
    HolidayData(Some("National Day"), Some("2023-10-01"), Some("2023-10-03"), compDays)
  }

  /**
   * With National Day 2023-10-01..2023-10-03 stored, getHolidayByDate finds it for its
   * first day and finds nothing for 2023-11-11.
   */
  lemma NationalDayScenario(table: HolidayTable, id: int)
    requires table.rows == [Row(id, NationalDay(None))]
    ensures table.HolidayByDate("2023-10-01") == Some(Row(id, NationalDay(None)))
    ensures table.HolidayByDate("2023-11-11") == None
  {
    var h := NationalDay(None);
    OctoberDates();
    CoversIsDayRange(h, Date(2023, 9, 1), Date(2023, 9, 3), Date(2023, 9, 1));
    CoversIsDayRange(h, Date(2023, 9, 1), Date(2023, 9, 3), Date(2023, 10, 11));
    assert DayNumber(Date(2023, 9, 3)) < DayNumber(Date(2023, 10, 11)) by {
      DayNumberMonotone(Date(2023, 9, 3), Date(2023, 10, 11));
    }
  }

  /** The texts of the scenario's dates. */
  lemma OctoberDates()
    ensures Format(Date(2023, 9, 1)) == "2023-10-01" && Format(Date(2023, 9, 3)) == "2023-10-03"
    ensures Format(Date(2023, 10, 11)) == "2023-11-11"
  {
    YearDigits();
    TwoDigits();
  }

  lemma YearDigits()
    ensures Digits(2023, 4) == "2023"
  {
    assert Digits(2, 1) == "2";
    assert Digits(20, 2) == "20";
    assert Digits(202, 3) == "202";
  }

  lemma TwoDigits()
    ensures Digits(10, 2) == "10" && Digits(11, 2) == "11" && Digits(1, 2) == "01" && Digits(3, 2) == "03"
  {
    assert Digits(1, 1) == "1" && Digits(0, 1) == "0";
  }

  /** With compDays ["2023-10-07"] stored, getWorkdayByDate("2023-10-07") finds the record. */
  lemma CompensationDayScenario(table: HolidayTable, id: int)
    requires table.rows == [Row(id, NationalDay(Some(["2023-10-07"])))]
    ensures table.WorkdayByDate("2023-10-07") == Some(Row(id, NationalDay(Some(["2023-10-07"]))))
  {
    ListedDayIsFound(NationalDay(Some(["2023-10-07"])), 0);
  }
}
