/**
 * get_current_week_image up to the drawing of the picture: find the current month's block of
 * three columns in the sheet, keep the rows that name a day, resolve the day names, date the
 * rows from the first of the month on, keep the rows of the week to show, and produce the
 * labelled cells of the table with their colours.
 */
module Schedule {
  import opened Results
  import opened Text
  import opened Sequences
  import opened Calendar
  import Weekdays
  import Subjects

  /** A cell of the sheet as read_csv gives it: a string, or None for an empty (NaN) cell. */
  type Cell = Option<string>

  /** The rows read from the sheet (at most 32 of them), each with the same number of cells. */
  datatype Sheet = Sheet(width: nat, rows: seq<seq<Cell>>)

  predicate WellFormed(sheet: Sheet) {
    |sheet.rows| <= 32 && forall i :: 0 <= i < |sheet.rows| ==> |sheet.rows[i]| == sheet.width
  }

  /** str() of a cell: an empty cell reads "nan". */
  function CellText(c: Cell): (text: string)
    ensures c.Some? ==> text == c.value
    ensures c.None? ==> text == "nan"
  {
    match c
    case None => "nan"
    case Some(s) => s
  }

  /** The ways the extraction stops with an exception instead of a result. */
  datatype Error =
    | EmptySheet               // no data rows after the three skipped lines
    | MonthNotFound(key: string) // the ValueError "Mois ... non trouvé"
    | BlockTooNarrow           // fewer than three columns left to rename
    | RangeEndInvalid          // date_range ending on a day the month does not have
    | LengthMismatch           // more day rows than dates

  /** mois_mapping: the month's name as the header row of the sheet spells it. */
  function MonthKey(month: int): (key: string)
    requires 1 <= month <= 12
    ensures |key| >= 3 && forall j :: 0 <= j < |key| ==> 'A' <= key[j] <= 'Z' || key[j] in {'\U{C9}', '\U{DB}'}
  {
    ["JANVIER", "F\U{C9}VRIER", "MARS", "AVRIL", "MAI", "JUIN", "JUILLET", "AO\U{DB}T",
     "SEPTEMBRE", "OCTOBRE", "NOVEMBRE", "DECEMBRE"][month - 1]
  }

  /** An empty header cell never holds a month's name: "nan" is lower case. */
  lemma EmptyCellHoldsNoMonth(month: int)
    requires 1 <= month <= 12
    ensures !Contains(CellText(None), MonthKey(month))
  {
    var key := MonthKey(month);
    ContainsAt("nan", key);
    if |key| == 3 {
      assert "nan"[0..3][0] == 'n';
    }
  }

  // ---------------------------------------------------------------------------------------
  // The month's column
  // ---------------------------------------------------------------------------------------

  /** The header row as text: df.iloc[0].astype(str). */
  function HeaderTexts(sheet: Sheet): (header: seq<string>)
    requires |sheet.rows| > 0
    ensures |header| == |sheet.rows[0]|
    ensures forall j :: 0 <= j < |header| ==> header[j] == CellText(sheet.rows[0][j])
  {
    seq(|sheet.rows[0]|, j requires 0 <= j < |sheet.rows[0]| => CellText(sheet.rows[0][j]))
  }

  /** The first index from `from` on whose header text contains key, if there is one. */
  function FirstContaining(header: seq<string>, key: string, from: nat): (r: Option<nat>)
    requires from <= |header|
    ensures r.Some? ==> from <= r.value < |header| && Contains(header[r.value], key)
    ensures r.Some? ==> forall j :: from <= j < r.value ==> !Contains(header[j], key)
    ensures r.None? <==> forall j :: from <= j < |header| ==> !Contains(header[j], key)
    decreases |header| - from
  {
    if from == |header| then None
    else if Contains(header[from], key) then Some(from)
    else FirstContaining(header, key, from + 1)
  }

  /** The loop over the header row that stops at the first cell containing the month's name. */
  method FindMonthColumn(header: seq<string>, key: string) returns (index: Option<nat>)
    ensures index == FirstContaining(header, key, 0)
  {
    index := None;
    var i := 0;
    while i < |header|
      invariant 0 <= i <= |header|
      invariant index == None
      invariant FirstContaining(header, key, 0) == FirstContaining(header, key, i)
      decreases |header| - i
    {
      if Contains(header[i], key) {
        index := Some(i);
        break;
      }
      i := i + 1;
    }
  }

  // ---------------------------------------------------------------------------------------
  // The month's rows
  // ---------------------------------------------------------------------------------------

  /** A row of the month's block: the Jour, Matin and Après-midi columns. */
  datatype Row = Row(day: Cell, morning: Cell, afternoon: Cell)

  /** df.iloc[1:, column:column + 3] with its columns renamed. */
  function MonthBlock(sheet: Sheet, column: nat): (block: seq<Row>)
    requires WellFormed(sheet) && |sheet.rows| > 0 && column + 3 <= sheet.width
    ensures |block| == |sheet.rows| - 1
    ensures forall k :: 0 <= k < |block| ==>
      block[k] == Row(sheet.rows[k + 1][column], sheet.rows[k + 1][column + 1], sheet.rows[k + 1][column + 2])
  {
    seq(|sheet.rows| - 1, k requires 0 <= k < |sheet.rows| - 1 =>
      Row(sheet.rows[k + 1][column], sheet.rows[k + 1][column + 1], sheet.rows[k + 1][column + 2]))
  }

  /** The rows kept by dropna on Jour and the test that the stripped day is not empty. */
  predicate HasDay(r: Row): (b: bool)
    ensures b <==> r.day.Some? && exists i :: 0 <= i < |r.day.value| && !IsSpace(r.day.value[i])
  {
    r.day.Some? && Strip(r.day.value) != []
  }

  /** The day column as map_jour_with_order receives it. */
  function DayTexts(rows: seq<Row>): (days: seq<string>)
    ensures |days| == |rows|
  {
    seq(|rows|, k requires 0 <= k < |rows| => CellText(rows[k].day))
  }

  /** The current month's rows that name a day, in the order of the sheet. */
  function MonthRows(sheet: Sheet, month: int): (r: Result<seq<Row>, Error>)
    requires WellFormed(sheet) && 1 <= month <= 12
    ensures |sheet.rows| == 0 <==> r == Failure(EmptySheet)
    ensures |sheet.rows| > 0 ==>
      (r == Failure(MonthNotFound(MonthKey(month))) <==>
         forall j :: 0 <= j < |sheet.rows[0]| ==> !Contains(CellText(sheet.rows[0][j]), MonthKey(month)))
    ensures r.Success? ==> |r.value| <= 31 && forall k :: 0 <= k < |r.value| ==> HasDay(r.value[k])
  {
    if |sheet.rows| == 0 then Failure(EmptySheet)
    else
      var header := HeaderTexts(sheet);
      match FirstContaining(header, MonthKey(month), 0)
      case None => Failure(MonthNotFound(MonthKey(month)))
      case Some(column) =>
        if column + 3 > sheet.width then Failure(BlockTooNarrow)
        else
          var block := MonthBlock(sheet, column);
          var rows := Filter(block, HasDay);
          assert forall k :: 0 <= k < |rows| ==> rows[k] in rows;
          Success(rows)
  }

  /** Every day row of the month's block is kept, in the order of the sheet. */
  lemma MonthRowsInOrder(sheet: Sheet, month: int)
    requires WellFormed(sheet) && 1 <= month <= 12 && MonthRows(sheet, month).Success?
    ensures var column := FirstContaining(HeaderTexts(sheet), MonthKey(month), 0).value;
      var block := MonthBlock(sheet, column);
      var rows := MonthRows(sheet, month).value;
      && |rows| == |Positions(block, HasDay)|
      && (forall k :: 0 <= k < |rows| ==> rows[k] == block[Positions(block, HasDay)[k]])
      && (forall i :: 0 <= i < |block| ==> (HasDay(block[i]) <==> i in Positions(block, HasDay)))
  {
    var column := FirstContaining(HeaderTexts(sheet), MonthKey(month), 0).value;
    FilterPicksPositions(MonthBlock(sheet, column), HasDay);
  }

  // ---------------------------------------------------------------------------------------
  // Dates and week numbers
  // ---------------------------------------------------------------------------------------

  /**
   * pd.date_range from the first of the month to day lastDay of it; a day the month does not
   * have cannot be parsed and raises.
   */
  function DateRange(year: int, month: int, lastDay: int): (r: Result<seq<Date>, Error>)
    requires 1 <= year && 1 <= month <= 12 && 1 <= lastDay
    ensures r.Success? <==> lastDay <= DaysInMonth(year, month)
    ensures r.Failure? ==> r.error == RangeEndInvalid
    ensures r.Success? ==> |r.value| == lastDay && r.value[0] == Date(year, month, 1)
    ensures r.Success? ==> forall k :: 0 <= k < lastDay ==>
      r.value[k] == Date(year, month, k + 1) && ValidDate(r.value[k]) && Ordinal(r.value[k]) == Ordinal(r.value[0]) + k
  {
    if lastDay > DaysInMonth(year, month) then Failure(RangeEndInvalid)
    else Success(seq(lastDay, k requires 0 <= k < lastDay => Date(year, month, k + 1)))
  }

  /** A dated row: the resolved day name, the two half-day cells, the Date and the Semaine. */
  datatype Entry = Entry(day: string, morning: Cell, afternoon: Cell, date: Date, week: int)

  /** Rows, names and dates zipped position by position, with the ISO week of each date. */
  function Dated(rows: seq<Row>, names: seq<string>, dates: seq<Date>): (entries: seq<Entry>)
    requires |names| == |rows| && |dates| == |rows|
    requires forall k :: 0 <= k < |dates| ==> ValidDate(dates[k])
    ensures |entries| == |rows|
  {
    seq(|rows|, k requires 0 <= k < |rows| =>
      Entry(names[k], rows[k].morning, rows[k].afternoon, dates[k], IsoWeek(dates[k])))
  }

  /**
   * df_mois with its Jour, Date and Semaine columns: the month's rows, the dates of the range up
   * to day lastDay, and all_dates[:len(df_mois)] assigned to them.
   */
  function MonthEntries(sheet: Sheet, year: int, month: int, lastDay: int): (r: Result<seq<Entry>, Error>)
    requires WellFormed(sheet) && 1 <= year && 1 <= month <= 12 && 1 <= lastDay
    ensures MonthRows(sheet, month).Failure? ==> r == Failure(MonthRows(sheet, month).error)
    ensures r.Success? ==> MonthRows(sheet, month).Success? && |r.value| == |MonthRows(sheet, month).value| <= lastDay
    ensures lastDay > DaysInMonth(year, month) ==> r.Failure?
  {
    match MonthRows(sheet, month)
    case Failure(e) => Failure(e)
    case Success(rows) =>
      match DateRange(year, month, lastDay)
      case Failure(e) => Failure(e)
      case Success(dates) =>
        if |rows| > |dates| then Failure(LengthMismatch)
        else Success(Dated(rows, Weekdays.ResolveDays(DayTexts(rows)), dates[..|rows|]))
  }

  /**
   * The k-th day row of the month is dated day k + 1 of the month and carries that date's ISO
   * week, its resolved day name and its own two half-day cells.
   */
  lemma MonthEntriesDated(sheet: Sheet, year: int, month: int, lastDay: int)
    requires WellFormed(sheet) && 1 <= year && 1 <= month <= 12 && 1 <= lastDay
    requires MonthEntries(sheet, year, month, lastDay).Success?
    ensures MonthRows(sheet, month).Success?
    ensures var entries := MonthEntries(sheet, year, month, lastDay).value;
      var rows := MonthRows(sheet, month).value;
      && |entries| == |rows| <= lastDay
      && forall k :: 0 <= k < |entries| ==>
           && entries[k].date == Date(year, month, k + 1)
           && ValidDate(entries[k].date)
           && entries[k].week == IsoWeek(entries[k].date)
           && entries[k].day == Weekdays.ResolveDays(DayTexts(rows))[k]
           && entries[k].morning == rows[k].morning
           && entries[k].afternoon == rows[k].afternoon
  {
    forall k | 0 <= k < |MonthEntries(sheet, year, month, lastDay).value| {
      MonthEntryAt(sheet, year, month, lastDay, k);
    }
  }

  /** Row k of the month, on its own. */
  lemma MonthEntryAt(sheet: Sheet, year: int, month: int, lastDay: int, k: nat)
    requires WellFormed(sheet) && 1 <= year && 1 <= month <= 12 && 1 <= lastDay
    requires MonthEntries(sheet, year, month, lastDay).Success?
    requires k < |MonthEntries(sheet, year, month, lastDay).value|
    ensures MonthRows(sheet, month).Success?
    ensures |MonthEntries(sheet, year, month, lastDay).value| == |MonthRows(sheet, month).value| <= lastDay
    ensures var e := MonthEntries(sheet, year, month, lastDay).value[k];
      var rows := MonthRows(sheet, month).value;
      && e.date == Date(year, month, k + 1)
      && ValidDate(e.date)
      && e.week == IsoWeek(e.date)
      && e.day == Weekdays.ResolveDays(DayTexts(rows))[k]
      && e.morning == rows[k].morning
      && e.afternoon == rows[k].afternoon
  {
    var rows := MonthRows(sheet, month).value;
    var dates := DateRange(year, month, lastDay).value;
    assert dates[k] == Date(year, month, k + 1);
  }

  /** The two errors of the dating step: a range end beyond the month, and too many rows. */
  lemma MonthEntriesErrors(sheet: Sheet, year: int, month: int, lastDay: int)
    requires WellFormed(sheet) && 1 <= year && 1 <= month <= 12 && 1 <= lastDay
    ensures MonthEntries(sheet, year, month, lastDay) == Failure(RangeEndInvalid)
        <==> MonthRows(sheet, month).Success? && lastDay > DaysInMonth(year, month)
    ensures MonthEntries(sheet, year, month, lastDay) == Failure(LengthMismatch)
        <==> MonthRows(sheet, month).Success? && lastDay <= DaysInMonth(year, month)
             && |MonthRows(sheet, month).value| > lastDay
    ensures MonthRows(sheet, month).Failure? ==>
      MonthEntries(sheet, year, month, lastDay) == Failure(MonthRows(sheet, month).error)
  {
  }

  // ---------------------------------------------------------------------------------------
  // The week to show
  // ---------------------------------------------------------------------------------------

  /** On a Saturday or a Sunday, the Monday after it; on any other day, the day itself. */
  function WeekendAdjusted(today: Date): (d: Date)
    requires ValidDate(today)
    ensures ValidDate(d)
    ensures Weekday(today) < 5 ==> d == today
    ensures Weekday(today) >= 5 ==> Weekday(d) == 0 && Ordinal(d) == Ordinal(today) + 7 - Weekday(today)
  {
    var w := Weekday(today);
    if w >= 5 then
      var d := AddDays(today, 7 - w);
      NextMonday(Ordinal(today), Ordinal(d));
      d
    else today
  }

  /** Moving on 7 - w days from a day of weekday w lands on a Monday. */
  lemma NextMonday(ord: int, next: int)
    requires next == ord + 7 - WeekdayOf(ord)
    ensures WeekdayOf(next) == 0
  {
  }

  /** The adjusted day lies in the week of today, or starts the next one on a weekend. */
  lemma AdjustedWeek(today: Date)
    requires ValidDate(today)
    ensures Weekday(today) < 5 ==> MondayOf(Ordinal(WeekendAdjusted(today))) == MondayOf(Ordinal(today))
    ensures Weekday(today) >= 5 ==> MondayOf(Ordinal(WeekendAdjusted(today))) == MondayOf(Ordinal(today)) + 7
  {
    if Weekday(today) >= 5 {
      OwnMonday(Ordinal(WeekendAdjusted(today)));
    }
  }

  /** A Monday starts its own week. */
  lemma OwnMonday(ord: int)
    requires WeekdayOf(ord) == 0
    ensures MondayOf(ord) == ord
  {
  }

  /** A day name the table leaves out. */
  predicate IsWeekend(name: string) {
    name == "Samedi" || name == "Dimanche"
  }

  /** A row of the week numbered `week` that is not a Saturday or a Sunday row. */
  predicate InWeek(e: Entry, week: int) {
    e.week == week && !IsWeekend(e.day)
  }

  function InWeekOf(week: int): Entry -> bool {
    (e: Entry) => InWeek(e, week)
  }

  /** df_semaine: the week filter on Semaine, then the Samedi/Dimanche filter. */
  function SelectWeek(entries: seq<Entry>, week: int): (selection: seq<Entry>)
    ensures forall e :: e in selection <==> e in entries && InWeek(e, week)
  {
    Filter(entries, InWeekOf(week))
  }

  /**
   * For a row dated less than 300 days from d, selection by d's week number keeps the row
   * exactly when it lies in d's Monday-to-Sunday week and is not a weekend row.
   */
  lemma SelectedIffSameWeek(entries: seq<Entry>, d: Date, k: nat)
    requires ValidDate(d) && k < |entries| && ValidDate(entries[k].date)
    requires -300 <= Ordinal(entries[k].date) - Ordinal(d) <= 300
    requires entries[k].week == IsoWeek(entries[k].date)
    ensures entries[k] in SelectWeek(entries, IsoWeek(d))
        <==> MondayOf(Ordinal(entries[k].date)) == MondayOf(Ordinal(d)) && !IsWeekend(entries[k].day)
  {
    SameWeekNumberIffSameWeek(entries[k].date, d);
  }

  /** A cell that is empty once '' is replaced by NA. */
  predicate Blank(c: Cell): (b: bool)
    ensures b <==> c.None? || |c.value| == 0
  {
    c == None || c == Some("")
  }

  /** No selected row has a course in either half-day (this includes having no row at all). */
  predicate NoClasses(selection: seq<Entry>): (b: bool)
    ensures b <==> forall e :: e in selection ==> Blank(e.morning) && Blank(e.afternoon)
    ensures selection == [] ==> b
  {
    forall k :: 0 <= k < |selection| ==> Blank(selection[k].morning) && Blank(selection[k].afternoon)
  }

  // ---------------------------------------------------------------------------------------
  // The table
  // ---------------------------------------------------------------------------------------

  /** A line of the table: the day name and the relabelled Matin and Après-midi cells. */
  datatype Line = Line(day: string, morning: string, afternoon: string)

  function ToLine(e: Entry): Line {
    Line(e.day, Subjects.Relabel(CellText(e.morning)), Subjects.Relabel(CellText(e.afternoon)))
  }

  function Lines(selection: seq<Entry>): (lines: seq<Line>)
    ensures |lines| == |selection|
  {
    seq(|selection|, k requires 0 <= k < |selection| => ToLine(selection[k]))
  }

  /**
   * The table for the week numbered `week`: None when no selected row has a course in either
   * half-day, otherwise one line per selected row.
   */
  function WeekTable(entries: seq<Entry>, week: int): (t: Option<seq<Line>>)
    ensures t.None? <==>
      forall e :: e in SelectWeek(entries, week) ==> Blank(e.morning) && Blank(e.afternoon)
  {
    var selection := SelectWeek(entries, week);
    assert forall k :: 0 <= k < |selection| ==> selection[k] in selection;
    if NoClasses(selection) then None else Some(Lines(selection))
  }

  /** The lines of a table are the selected rows, relabelled, in the order of the rows. */
  lemma WeekTableLines(entries: seq<Entry>, week: int)
    requires WeekTable(entries, week).Some?
    ensures var lines := WeekTable(entries, week).value;
      && |lines| == |Positions(entries, InWeekOf(week))|
      && forall k :: 0 <= k < |lines| ==> lines[k] == ToLine(entries[Positions(entries, InWeekOf(week))[k]])
  {
    FilterPicksPositions(entries, InWeekOf(week));
  }

  /** A selected row with a course in it makes the table non-empty and shows up in it. */
  lemma WeekTableShows(entries: seq<Entry>, week: int, k: nat)
    requires k < |entries| && InWeek(entries[k], week)
    requires !(Blank(entries[k].morning) && Blank(entries[k].afternoon))
    ensures WeekTable(entries, week).Some?
    ensures ToLine(entries[k]) in WeekTable(entries, week).value
  {
    var selection := SelectWeek(entries, week);
    assert entries[k] in selection;
    var i :| 0 <= i < |selection| && selection[i] == entries[k];
    assert Lines(selection)[i] == ToLine(entries[k]);
  }

  /** The colours of a line: white for the day, then the colour of each half-day. */
  function RowColours(l: Line): (colours: seq<string>)
    ensures |colours| == 3 && colours[0] == Subjects.White
  {
    [Subjects.White, Subjects.Colour(Some(l.morning)), Subjects.Colour(Some(l.afternoon))]
  }

  /** cell_colors: the loop over the selected rows that appends each row's three colours. */
  method CellColours(lines: seq<Line>) returns (colours: seq<seq<string>>)
    ensures |colours| == |lines|
    ensures forall k :: 0 <= k < |lines| ==> colours[k] == RowColours(lines[k])
  {
    colours := [];
    var i := 0;
    ghost var rows := seq(|lines|, k requires 0 <= k < |lines| => RowColours(lines[k]));
    while i < |lines|
      invariant 0 <= i <= |lines|
      invariant colours == rows[..i]
      decreases |lines| - i
    {
      var row := RowColours(lines[i]);
      assert rows[..i + 1] == rows[..i] + [row];
      colours := colours + [row];
      i := i + 1;
    }
    assert rows[..i] == rows;
  }

  /**
   * The colour a cell ends up with: its course's colour when it holds a known code, and white
   * when it is empty.
   */
  lemma CellColour(c: Cell)
    ensures Strip(CellText(c)) in Subjects.Labels ==>
      Subjects.Colour(Some(Subjects.Relabel(CellText(c)))) == Subjects.Colours[Strip(CellText(c))]
    ensures c == None ==> Subjects.Colour(Some(Subjects.Relabel(CellText(c)))) == Subjects.White
  {
    if Strip(CellText(c)) in Subjects.Labels {
      Subjects.ColourOfRelabel(CellText(c));
    }
    if c == None {
      StripTrimmed("nan");
      NanHasNoSeparator();
      Subjects.UnknownIsWhite("nan");
    }
  }

  lemma NanHasNoSeparator()
    ensures !Contains("nan", Subjects.LabelSeparator)
  {
    ContainsAt("nan", Subjects.LabelSeparator);
    assert "nan"[0..2][0] == 'n' && "nan"[1..3][0] == 'a';
  }

  // ---------------------------------------------------------------------------------------
  // The current week
  // ---------------------------------------------------------------------------------------

  /**
   * get_current_week_image as written: today's month, a date range that always ends on day 31,
   * and the week number of the weekend-adjusted day.
   */
  function CurrentWeek(sheet: Sheet, today: Date): (r: Result<Option<seq<Line>>, Error>)
    requires WellFormed(sheet) && ValidDate(today)
    ensures r.Failure? <==> MonthEntries(sheet, today.year, today.month, 31).Failure?
    ensures DaysInMonth(today.year, today.month) < 31 ==> r.Failure?
  {
    match MonthEntries(sheet, today.year, today.month, 31)
    case Failure(e) => Failure(e)
    case Success(entries) => Success(WeekTable(entries, IsoWeek(WeekendAdjusted(today))))
  }

  /**
   * The table for the week of day d as evidently intended: the block of d's month, dated up to
   * the month's last day, and d's week number.
   */
  function WeekOfDay(sheet: Sheet, d: Date): (r: Result<Option<seq<Line>>, Error>)
    requires WellFormed(sheet) && ValidDate(d)
    ensures r.Failure? <==> MonthEntries(sheet, d.year, d.month, DaysInMonth(d.year, d.month)).Failure?
    ensures MonthRows(sheet, d.month).Failure? ==> r == Failure(MonthRows(sheet, d.month).error)
  {
    match MonthEntries(sheet, d.year, d.month, DaysInMonth(d.year, d.month))
    case Failure(e) => Failure(e)
    case Success(entries) => Success(WeekTable(entries, IsoWeek(d)))
  }

  /** get_current_week_image corrected: the week of the weekend-adjusted day. */
  function CorrectedCurrentWeek(sheet: Sheet, today: Date): (r: Result<Option<seq<Line>>, Error>)
    requires WellFormed(sheet) && ValidDate(today)
    ensures Weekday(today) < 5 ==> r == WeekOfDay(sheet, today)
    ensures r.Failure? ==> r.error != RangeEndInvalid
  {
    WeekOfDay(sheet, WeekendAdjusted(today))
  }

  /** As written, a month with fewer than 31 days stops with an error once its column is found. */
  lemma ShortMonthFails(sheet: Sheet, today: Date)
    requires WellFormed(sheet) && ValidDate(today)
    requires MonthRows(sheet, today.month).Success?
    requires DaysInMonth(today.year, today.month) < 31
    ensures CurrentWeek(sheet, today) == Failure(RangeEndInvalid)
  {
    MonthEntriesErrors(sheet, today.year, today.month, 31);
  }

  /** As written, a month of 31 days never has more day rows than dates. */
  lemma LongMonthHasDates(sheet: Sheet, today: Date)
    requires WellFormed(sheet) && ValidDate(today)
    requires DaysInMonth(today.year, today.month) == 31
    ensures CurrentWeek(sheet, today) != Failure(RangeEndInvalid)
    ensures CurrentWeek(sheet, today) != Failure(LengthMismatch)
  {
    MonthEntriesErrors(sheet, today.year, today.month, 31);
  }

  /**
   * Away from the two gaps (a short month, and a weekend whose next Monday is in another month),
   * the corrected pipeline gives what the code as written gives.
   */
  lemma CorrectedAgreesWhereAsWrittenWorks(sheet: Sheet, today: Date)
    requires WellFormed(sheet) && ValidDate(today)
    requires DaysInMonth(today.year, today.month) == 31
    requires WeekendAdjusted(today).year == today.year && WeekendAdjusted(today).month == today.month
    ensures CorrectedCurrentWeek(sheet, today) == CurrentWeek(sheet, today)
  {
  }

  /** With the range ending on the month's last day, the range never fails. */
  lemma CorrectedRangeNeverFails(sheet: Sheet, today: Date)
    requires WellFormed(sheet) && ValidDate(today)
    ensures CorrectedCurrentWeek(sheet, today) != Failure(RangeEndInvalid)
  {
    var d := WeekendAdjusted(today);
    MonthEntriesErrors(sheet, d.year, d.month, DaysInMonth(d.year, d.month));
  }

  /**
   * As written, on a weekend whose next Monday falls in the next month, every row of the
   * month is dated before that Monday's week, so the table is always empty.
   */
  lemma MonthEndWeekendShowsNothing(sheet: Sheet, today: Date)
    requires WellFormed(sheet) && ValidDate(today)
    requires Weekday(today) >= 5 && today.day + 7 - Weekday(today) > DaysInMonth(today.year, today.month)
    ensures CurrentWeek(sheet, today).Success? ==> CurrentWeek(sheet, today) == Success(None)
  {
    var d := WeekendAdjusted(today);
    if MonthEntries(sheet, today.year, today.month, 31).Success? {
      MonthEntriesDated(sheet, today.year, today.month, 31);
      var entries := MonthEntries(sheet, today.year, today.month, 31).value;
      AdjustedWeek(today);
      OwnMonday(Ordinal(d));
      forall k | 0 <= k < |entries|
        ensures !InWeekOf(IsoWeek(d))(entries[k])
      {
        SameWeekNumberIffSameWeek(entries[k].date, d);
      }
      FilterNone(entries, InWeekOf(IsoWeek(d)));
    }
  }

  /** Saturday 30 August 2025: the next Monday is 1 September, so as written no sheet shows a table. */
  lemma LastWeekendOfAugust2025(sheet: Sheet)
    requires WellFormed(sheet)
    ensures CurrentWeek(sheet, Date(2025, 8, 30)).Success? ==> CurrentWeek(sheet, Date(2025, 8, 30)) == Success(None)
  {
    var today := Date(2025, 8, 30);
    assert Weekday(today) == 5 by { KnownDates(); }
    assert DaysInMonth(2025, 8) == 31;
    MonthEndWeekendShowsNothing(sheet, today);
  }

  /**
   * The sheet has a row for day d in d's month block, that row is not a weekend row, and it
   * has a course in one of its half-days.
   */
  predicate HasClassesOn(sheet: Sheet, d: Date)
    requires WellFormed(sheet) && ValidDate(d)
  {
    var m := MonthEntries(sheet, d.year, d.month, DaysInMonth(d.year, d.month));
    && m.Success? && d.day <= |m.value|
    && !IsWeekend(m.value[d.day - 1].day)
    && !(Blank(m.value[d.day - 1].morning) && Blank(m.value[d.day - 1].afternoon))
  }

  /**
   * Corrected, a weekend shows the next Monday's courses, so a month-end weekend no longer
   * gives None when the next month's first Monday has courses.
   */
  lemma CorrectedShowsAdjustedDay(sheet: Sheet, today: Date)
    requires WellFormed(sheet) && ValidDate(today)
    requires HasClassesOn(sheet, WeekendAdjusted(today))
    ensures CorrectedCurrentWeek(sheet, today).Success?
    ensures CorrectedCurrentWeek(sheet, today).value.Some?
  {
    DayRowShown(sheet, WeekendAdjusted(today));
  }

  /** The row of day d itself is shown in the table of d's week when it has a course. */
  lemma DayRowShown(sheet: Sheet, d: Date)
    requires WellFormed(sheet) && ValidDate(d) && HasClassesOn(sheet, d)
    ensures WeekOfDay(sheet, d).Success? && WeekOfDay(sheet, d).value.Some?
  {
    var lastDay := DaysInMonth(d.year, d.month);
    MonthEntryAt(sheet, d.year, d.month, lastDay, d.day - 1);
    DayShown(MonthEntries(sheet, d.year, d.month, lastDay).value, d, d.day - 1);
  }

  /** A row dated d with a course in it, and not a weekend row, is shown in the table of d's week. */
  lemma DayShown(entries: seq<Entry>, d: Date, k: nat)
    requires ValidDate(d) && k < |entries| && entries[k].date == Date(d.year, d.month, d.day)
    requires entries[k].week == IsoWeek(entries[k].date) && !IsWeekend(entries[k].day)
    requires !(Blank(entries[k].morning) && Blank(entries[k].afternoon))
    ensures WeekTable(entries, IsoWeek(d)).Some?
  {
    WeekTableShows(entries, IsoWeek(d), k);
  }

  /**
   * Row k of day d's month, which is day k + 1, is in the table of d's week exactly when it
   * lies in d's Monday-to-Sunday week and is not a weekend row.
   */
  lemma WeekOfDaySelects(sheet: Sheet, d: Date, k: nat)
    requires WellFormed(sheet) && ValidDate(d)
    requires var m := MonthEntries(sheet, d.year, d.month, DaysInMonth(d.year, d.month));
      m.Success? && k < |m.value|
    ensures var entries := MonthEntries(sheet, d.year, d.month, DaysInMonth(d.year, d.month)).value;
      (entries[k] in SelectWeek(entries, IsoWeek(d)) <==>
         MondayOf(Ordinal(Date(d.year, d.month, k + 1))) == MondayOf(Ordinal(d)) && !IsWeekend(entries[k].day))
  {
    var lastDay := DaysInMonth(d.year, d.month);
    MonthEntryAt(sheet, d.year, d.month, lastDay, k);
    SelectedIffSameWeek(MonthEntries(sheet, d.year, d.month, lastDay).value, d, k);
  }

  /** The table as drawn: its lines, and the three colours of each line. */
  datatype Table = Table(lines: seq<Line>, colours: seq<seq<string>>)

  /** The table drawn for a week's lines, each line with its three colours. */
  function TableOf(t: Option<seq<Line>>): Option<Table> {
    match t
    case None => None
    case Some(lines) => Some(Table(lines, seq(|lines|, k requires 0 <= k < |lines| => RowColours(lines[k]))))
  }

  function Tabulated(r: Result<Option<seq<Line>>, Error>): Result<Option<Table>, Error> {
    match r
    case Failure(e) => Failure(e)
    case Success(t) => Success(TableOf(t))
  }

  /**
   * The month's rows as get_current_week_image builds them: the loop over the header row, the
   * slice and cleanup, the day names, and the dates.
   */
  method ReadMonth(sheet: Sheet, year: int, month: int, lastDay: int) returns (m: Result<seq<Entry>, Error>)
    requires WellFormed(sheet) && 1 <= year && 1 <= month <= 12 && 1 <= lastDay
    ensures m == MonthEntries(sheet, year, month, lastDay)
  {
    if |sheet.rows| == 0 {
      return Failure(EmptySheet);
    }
    var key := MonthKey(month);
    var column := FindMonthColumn(HeaderTexts(sheet), key);
    if column.None? {
      return Failure(MonthNotFound(key));
    }
    if column.value + 3 > sheet.width {
      return Failure(BlockTooNarrow);
    }
    var rows := Filter(MonthBlock(sheet, column.value), HasDay);
    assert MonthRows(sheet, month) == Success(rows);
    var names := Weekdays.MapDaysWithOrder(DayTexts(rows));
    var dates := DateRange(year, month, lastDay);
    if dates.Failure? {
      return Failure(dates.error);
    }
    if |rows| > |dates.value| {
      return Failure(LengthMismatch);
    }
    m := Success(Dated(rows, names, dates.value[..|rows|]));
  }

  /** The selection, the emptiness test, the relabelling and the loop that colours the cells. */
  method DrawWeek(entries: seq<Entry>, week: int) returns (t: Option<Table>)
    ensures t == TableOf(WeekTable(entries, week))
  {
    var selection := SelectWeek(entries, week);
    if NoClasses(selection) {
      return None;
    }
    var lines := Lines(selection);
    var colours := CellColours(lines);
    assert colours == seq(|lines|, k requires 0 <= k < |lines| => RowColours(lines[k]));
    t := Some(Table(lines, colours));
  }

  /**
   * get_current_week_image step by step, on the month and week of the adjusted day, with the
   * dates running to the month's last day.
   */
  method CurrentWeekTable(sheet: Sheet, today: Date) returns (r: Result<Option<Table>, Error>)
    requires WellFormed(sheet) && ValidDate(today)
    ensures r == Tabulated(CorrectedCurrentWeek(sheet, today))
  {
    var d := WeekendAdjusted(today);
    var m := ReadMonth(sheet, d.year, d.month, DaysInMonth(d.year, d.month));
    if m.Failure? {
      return Failure(m.error);
    }
    var t := DrawWeek(m.value, IsoWeek(d));
    r := Success(t);
  }
}
