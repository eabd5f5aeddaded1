# Weekly timetable extraction of bot_planning

This project models how the Discord bot `bot.py` turns a semester timetable sheet into the table
of the current week's classes.

1. The bot finds the current month's block of three columns (Jour, Matin, Après-midi). It does
   this by scanning the sheet's header row for the French month name.
2. It keeps the rows that name a day.
3. It resolves the one- or two-letter day abbreviations. An ambiguous `m` is Mardi right after a
   Lundi, and Mercredi otherwise.
4. It dates the k-th remaining row as day k + 1 of the month and attaches the ISO week number.
5. It works out the week to show: on a Saturday or Sunday, the week of the next Monday.
6. It keeps that week's rows, without Samedi and Dimanche.
7. It returns None (no classes) when every half-day cell of those rows is empty.
8. Otherwise it relabels each course code as `CODE : Intitulé` and colours each cell by its
   course.

Modules:

- `Results`: `Option` and `Result`.
- `Text`: Python's `str.strip()`, `str.lower()`, `in` on strings, and `split(" :")[0]`.
- `Sequences`: the filtering of rows that keeps their order.
- `Calendar`: the proleptic Gregorian calendar as Python's `datetime` computes it. This covers day
  ordinals, weekdays with Monday = 0, adding days, and the ISO 8601 week date, whose week 1 holds
  the year's first Thursday.
- `Weekdays`: `map_jour_with_order`, as a specification function and as the loop.
- `Subjects`: the course tables, `remplacer_code_matiere` and `couleur_matiere`.
- `Schedule`: the extraction and selection steps of `get_current_week_image`.

What the model takes as given:

- A sheet is the up to 32 rows that `read_csv(..., skiprows=3, nrows=32)` returns. Each cell is a
  string, or `None` for an empty (NaN) cell, which `str()` turns into `"nan"`.
- Today's date is a parameter.

Each exception the code can raise on the way becomes an `Error` value:

- no rows at all;
- the month is not found;
- fewer than three columns are left for the block;
- the end of the date range is a day that does not exist;
- there are more day rows than dates.

`Schedule.CurrentWeek` is the pipeline as written. `Schedule.CorrectedCurrentWeek` and the method
`Schedule.CurrentWeekTable` give the behaviour the code evidently intends: the dates run to the
month's true last day, and the month is the month of the weekend-adjusted day. "## Findings" below
describes both gaps. `Schedule.CorrectedAgreesWhereAsWrittenWorks` proves that the correction changes
nothing else: in a 31-day month, when the adjusted day stays in today's month, both give the same
result.

One point where this model follows the code and not a looser reading of it: the dates are zipped
with the rows only when there are no more rows than dates. With more rows than dates, pandas
assigns a column of the wrong length and raises. It does not truncate. The months too short for
the day-31 range end also raise.

## Model

| member | source | states |
|---|---|---|
| Weekdays.MapDaysWithOrder | bot.py:165-193 | the loop returns exactly the specification `ResolveDays` of the day column |
| Weekdays.ScanDays | bot.py:167-193 | the loop over cleaned entries, which remembers the last appended name, computes the scan `ResolveFrom` from no previous name |
| Weekdays.ResolveOne | bot.py:171-191 | the name for one cleaned entry is the entry itself or one of the seven day names; `FixedAbbreviations`, `LundiOnlyFromL` and `MardiIffAfterLundi` state which |
| Weekdays.ResolveDays | bot.py:165-193 | the result has as many names as there are entries in the column |
| Weekdays.ResolveFrom | bot.py:167-193 | the scan gives one name per entry; `ResolveDaysAt` states that name k is resolved against name k - 1 |
| Weekdays.CleanAll | bot.py:166 | (definition) every entry is replaced by its stripped, lower-cased form, and the length is unchanged |
| Weekdays.ResolveDaysAt | bot.py:166-193 | name k is entry k, cleaned, resolved against name k - 1 (or against nothing at the top) |
| Weekdays.FixedAbbreviations | bot.py:171-191 | l, me, j, v, s, d give Lundi, Mercredi, Jeudi, Vendredi, Samedi, Dimanche; an entry that is no abbreviation is kept in its cleaned form |
| Weekdays.LundiOnlyFromL | bot.py:171-172 | a name is Lundi if and only if its cleaned entry is `l` |
| Weekdays.MardiIffAfterLundi | bot.py:173-179 | an `m` becomes Mardi if and only if the entry above is an `l`, and Mercredi otherwise, including at the top of the column |
| Subjects.CodeShape | bot.py:26-49 | both course tables have the same codes, each six characters with no whitespace |
| Subjects.Relabel | bot.py:36-40 | the result starts with the stripped code; it equals the stripped code if and only if that code is unknown; for a known code, " : " and the title follow |
| Subjects.RelabelIdempotent | bot.py:36-40 | relabelling a relabelled cell changes nothing |
| Subjects.Colour | bot.py:51-55 | None is white; every result is white or one of the course colours |
| Subjects.ColourOfRelabel | bot.py:36-55 | the colour of a known code's label is that code's colour |
| Subjects.UnknownIsWhite | bot.py:36-55 | an unknown code without " :" keeps its stripped text and is painted white |
| Schedule.MonthKey | bot.py:66-72 | each month's name in the sheet has at least three characters, all capital letters |
| Schedule.CellText | bot.py:75 | (definition) `str()` of a cell: the string itself, or "nan" for an empty cell |
| Schedule.EmptyCellHoldsNoMonth | bot.py:75-78 | an empty header cell, read as "nan", never contains a month's name |
| Schedule.HeaderTexts | bot.py:75 | (definition) the header row as text, cell by cell, with empty cells as "nan" |
| Schedule.FirstContaining | bot.py:76-80 | returns the smallest index whose text contains the key; returns None if and only if no cell from there on contains it |
| Schedule.FindMonthColumn | bot.py:76-80 | the loop that breaks at the first match returns exactly `FirstContaining` from index 0 |
| Schedule.MonthBlock | bot.py:85-86 | (definition) row k of the block is the three cells at the column in row k + 1 of the sheet |
| Schedule.HasDay | bot.py:89-90 | a row is kept if and only if its Jour cell is not empty and holds a character that is not whitespace |
| Schedule.DayTexts | bot.py:97 | (definition) one day text per kept row |
| Schedule.MonthRows | bot.py:75-90 | fails with EmptySheet exactly on an empty sheet; fails with MonthNotFound if and only if no header cell contains the month's name; on success, at most 31 rows, each naming a non-blank day |
| Schedule.MonthRowsInOrder | bot.py:85-90 | the rows kept are exactly the block's rows with a day, in sheet order |
| Schedule.DateRange | bot.py:103 | succeeds if and only if the end day exists in the month; day k of the range is date k + 1 of the month, k days after the first |
| Schedule.Dated | bot.py:104-105 | (definition) one entry per row |
| Schedule.MonthEntries | bot.py:85-105 | a failure to find the month's rows passes through; a range end past the month's length always fails; on success, one entry per kept row and no more than the range has days. `MonthEntriesDated` states each entry's date, week, name and cells |
| Schedule.MonthEntriesDated | bot.py:97-105 | the k-th kept row is dated day k + 1 of the month, carries that date's ISO week and its resolved day name, and keeps its own half-day cells |
| Schedule.MonthEntryAt | bot.py:97-105 | the same facts for one row k |
| Schedule.MonthEntriesErrors | bot.py:85-105 | the range fails exactly when the month's rows were found and the end day is past the month's length; the length mismatch happens exactly when the month has more rows than range days; earlier errors pass through |
| Schedule.WeekendAdjusted | bot.py:108-112 | a weekday is left as it is; a Saturday or Sunday moves on 7 - weekday days to a Monday |
| Schedule.NextMonday | bot.py:112 | moving on 7 - weekday days lands on a Monday |
| Schedule.AdjustedWeek | bot.py:110-114 | the adjusted day is in today's Monday-to-Sunday week on weekdays, and in the next week on weekends |
| Schedule.SelectWeek | bot.py:116-119 | a row is selected if and only if it is a row of the month with the given week number and is not Samedi or Dimanche |
| Schedule.SelectedIffSameWeek | bot.py:105-119 | for dates less than 300 days apart, a row is selected by day d's week number if and only if it lies in d's Monday-to-Sunday week and is not a weekend row |
| Calendar.IsoWeek | bot.py:105-114 | the ISO week number, from 1 to 53; `SameWeekNumberIffSameWeek` and `IsoWeekCountsFromWeek1Monday` state what it counts |
| Schedule.WeekOfDaySelects | bot.py:101-119 | row k of day d's month is selected if and only if day k + 1 lies in d's week and is not a weekend row |
| Schedule.WeekTable | bot.py:116-127 | None if and only if every selected row has both half-day cells empty or "" (including when nothing is selected) |
| Schedule.Blank | bot.py:122 | (definition) a half-day cell counts as empty if and only if it is NaN or exactly "" (a cell of spaces is not empty) |
| Schedule.NoClasses | bot.py:122 | holds if and only if every selected row has both half-day cells empty; it holds for an empty selection |
| Schedule.Lines | bot.py:126-127 | one relabelled line per selected row |
| Schedule.WeekTableLines | bot.py:116-127 | the table's lines are the selected rows in sheet order, each relabelled |
| Schedule.WeekTableShows | bot.py:116-127 | a selected row with a course makes the table non-empty and appears in it |
| Schedule.RowColours | bot.py:132-136 | three colours per line; the day cell is white |
| Schedule.CellColours | bot.py:130-136 | the loop gives one colour row per line: white, then the colours of the morning and afternoon labels |
| Schedule.CellColour | bot.py:126-136 | a cell holding a known code gets that code's colour; an empty cell ("nan") gets white |
| Schedule.NanHasNoSeparator | bot.py:54 | "nan" has no " :" to split on |
| Schedule.CurrentWeek | bot.py:60-127 | the pipeline as written fails exactly when the month's rows cannot be dated up to day 31, and always fails in a month shorter than 31 days |
| Schedule.WeekOfDay | bot.py:85-127 | the table for day d's week from d's month dated to its last day; it fails exactly when that month's rows cannot be read or dated, and passes failures to find the rows through |
| Schedule.CorrectedCurrentWeek | bot.py:101-127 | on a weekday it is the table of today's week; it never fails at the date range |
| Schedule.CorrectedAgreesWhereAsWrittenWorks | bot.py:60-127 | in a 31-day month, on a day whose weekend-adjusted day stays in the same month, the corrected pipeline gives exactly what the code as written gives |
| Schedule.ShortMonthFails | bot.py:101-104 | as written, a month shorter than 31 days always fails with RangeEndInvalid once its block is found |
| Schedule.LongMonthHasDates | bot.py:101-104 | as written, a 31-day month never fails at the range or at the length check |
| Schedule.CorrectedRangeNeverFails | bot.py:101-104 | with the range ending on the month's last day, the range never fails |
| Schedule.MonthEndWeekendShowsNothing | bot.py:101-123 | as written, on a weekend whose next Monday is in the next month, the result is None (no classes) whenever it is not an error |
| Schedule.LastWeekendOfAugust2025 | bot.py:101-123 | as written, on Saturday 30 August 2025 every sheet gives None (no classes) or an error |
| Schedule.CorrectedShowsAdjustedDay | bot.py:101-127 | corrected, a weekend shows a table whenever the next Monday's row has a course |
| Schedule.DayRowShown | bot.py:101-127 | the table of day d's week is non-empty when d's row has a course |
| Schedule.DayShown | bot.py:116-127 | a non-weekend row dated d with a course makes the table of d's week non-empty |
| Schedule.HasClassesOn | bot.py:89-127 | the sheet has a non-weekend row for day d in d's month, with a course in one half-day |
| Schedule.ReadMonth | bot.py:62-105 | the step-by-step extraction (header loop, slice, cleanup, day names, dates) returns exactly `MonthEntries` |
| Schedule.DrawWeek | bot.py:116-136 | the selection, the emptiness test, the relabelling and the colour loop give exactly the table of `WeekTable` |
| Schedule.CurrentWeekTable | bot.py:60-136 | the whole pipeline, step by step and in its corrected form, gives exactly `CorrectedCurrentWeek` with colours attached |
| Calendar.DaysInMonth | bot.py:103 | months have 28 to 31 days; 29 exactly in February of a leap year |
| Calendar.MondayOf | bot.py:105-114 | the Monday that starts the week of a day: a Monday, at most six days before it |
| Calendar.AddDays | bot.py:112 | adding k days gives a valid date k ordinals later |
| Calendar.Weekday | bot.py:111 | weekday numbers run from 0 (Monday) to 6 |
| Calendar.IsoCalendar | bot.py:105-114 | ISO weekday is weekday + 1; the week is between 1 and 53; the ISO year is within one of the calendar year |
| Calendar.IsoWeekCountsFromWeek1Monday | bot.py:105-114 | the week found by the Thursday rule is counted in whole weeks from the Monday of ISO week 1, as `date.isocalendar()` counts it |
| Calendar.Week1HoldsFirstThursday | bot.py:105-114 | the Monday of week 1 is followed three days later by the year's first Thursday |
| Calendar.SameWeekNumberIffSameWeek | bot.py:105-116 | for dates less than 300 days apart, equal ISO week numbers mean the same Monday-to-Sunday week, and conversely |
| Calendar.KnownDates | bot.py:105-114 | 2025-08-30 is a Saturday (weekday 5), 2025-09-01 is the Monday of ISO week 36, and 2021-01-01 is day 5 of week 53 of ISO year 2020, as Python's datetime gives them |
| Text.Strip | bot.py:166 | the result is the input without leading and trailing whitespace; it is empty exactly when the input is all whitespace |
| Text.StripIdempotent | bot.py:37 | stripping twice is stripping once |
| Text.Lower | bot.py:166 | same length; capital letters become small ones; nothing else changes |
| Text.ContainsAt | bot.py:78 | a string contains another exactly when it occurs at some index |
| Text.Before | bot.py:54 | the part before the first " :", or the whole string when there is none |
| Sequences.Filter | bot.py:89-119 | keeps exactly the elements that pass the test |
| Sequences.FilterPicksPositions | bot.py:89-119 | the elements kept are those at the passing positions, in order |

## Left out

- Discord, the `/planning` command, bot start-up and token loading (bot.py:1-24 and bot.py:196-222) are glue around the extraction and are not modelled.
- `read_csv` is not modelled. The sheet is given as its rows of string cells or `None`; pandas' type inference and its conversion of strings such as "NA" to NaN are not modelled.
- The clock is a parameter. The code reads `datetime.now()` four times: for the month name (bot.py:65), the year and month number (bot.py:101-102) and today (bot.py:108). The model takes all four reads as one instant `today`. A request that runs across midnight at the end of a month could find one month's block and date it with the next month's days; this is not modelled.
- `strftime("%B")` is assumed to give English month names. In another locale `mois_cle` is None and `in` raises a TypeError; this is not modelled.
- What the `/planning` command does with a None result (bot.py:204-207 passes it on to `discord.File` unchecked) is not modelled; the model stops at the value `get_current_week_image` returns.
- The matplotlib drawing (bot.py:138-163) is reduced to the `Table` value: its lines and cell colours. Figure size, fonts and the PNG buffer are not modelled.
- pandas date bounds (no dates past year 2262) and Python's year limit of 9999 are not modelled; years are unbounded.
- Text.Lower: lower-cases ASCII letters only, because the day abbreviations are ASCII. Python's full Unicode case mapping is not modelled.
- `jours_map` and the commented-out line (bot.py:93-98) are never used and are not modelled.
- The `code is None` branch of `couleur_matiere` cannot be reached from the table. Cells are relabelled first, so an empty cell arrives as "nan". `Subjects.Colour` still models the branch.
- Schedule.SelectedIffSameWeek: states the Monday-to-Sunday reading of a week number only for dates less than 300 days apart. Week numbers repeat every year, so farther dates can share a number without sharing a week. In the pipeline, the two dates are always in the same or the next month.
- A week that spans two months shows only the rows of the month whose block is read. The code does this, and so does the corrected pipeline.
- Weekdays.Clean: has no contract of its own. Its properties are stated through `CleanAll`, `Text.Strip` and `Text.Lower`.

## Findings

| source | as written | input that shows it | evidently intended | confidence | as-written member | corrected member |
|---|---|---|---|---|---|---|
| bot.py:103 | the date range always ends on day 31 (`end=f"{annee}-{mois_num:02d}-31"`), which is no date in a 30-day month or in February | any day of April 2025, with an April block found in the sheet: "2025-04-31" cannot be parsed and the command fails | dates running to the month's last day | not executed | Schedule.ShortMonthFails | Schedule.CorrectedRangeNeverFails |
| bot.py:101-116 | on a weekend the week number moves to the next Monday, but the rows and dates still come from today's month | Saturday 30 August 2025: the next Monday is 1 September (ISO week 36), no August row is dated in week 36, so `get_current_week_image` returns None however full that week is | the rows of the adjusted day's month | not executed | Schedule.MonthEndWeekendShowsNothing | Schedule.CorrectedShowsAdjustedDay |
