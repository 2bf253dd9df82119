# Mess expense and meal tracker: record-keeping core

This project models the record-keeping core of a small web application. A shared mess (a group household) uses it to track expenses and meals. It covers four pages:

- **Attendance page.** An attendance book maps a date to a person to their breakfast, lunch and dinner marks. The page toggles one mark on the selected date and looks up a mark (false when nothing is recorded). It lists the dates of a calendar month and computes a per-person monthly summary: meals attended, the maximum possible, days present and days absent.
- **Dashboard.** The dashboard is backed by a record store with tables for expenses, people and meals. The model covers:
  - the expense search box and its date window;
  - the analytics views: meals per person split by meal type, and expense totals per buyer or per item;
  - today's meal check boxes, which insert or delete a meal row;
  - optimistic deletes of expenses and people, rolled back when the store refuses;
  - the CSV export's cell encoding;
  - the expense form, whose total follows quantity times unit price;
  - `capitalize`.
- **People page.** A list of names kept by the browser. Adding trims the name and refuses blank or repeated names. Removing works by index.
- **Local expenses page.** A list of `{item, price, date, buyer}` entries. Adding requires all four fields. Deleting works by index.

Every call to the record store is a method parameter: the outcome of a write (`Ok` or `Failed`), the id the store gives a new row, and the rows a query returns. The browser's confirmation dialog is a boolean parameter. Today's date is a parameter. Money is an integer number of minor units.

Files:
- `text.dfy`: the JavaScript string primitives the pages rely on:
  - `trim`, with the ECMAScript white-space set;
  - ASCII `toLowerCase` and `toUpperCase`;
  - `includes`;
  - string order, by code point (JavaScript's order on strings without characters above U+FFFF, such as ISO dates);
  - fixed-width decimal digits.
- `lists.dfy`: order-preserving filters, the subsequence relation, and removal by index.
- `tally.dfy`: per-key totals of weighted rows, the shape of both analytics loops.
- `meals.dfy`, `option.dfy`, `dashboard_data.dfy`: shared datatypes.
- `attendance.dfy`, `search.dfy`, `analytics.dfy`, `csv.dfy`, `dashboard.dfy`, `people.dfy`, `expenses.dfy`: the pages.

The CSV module also holds an RFC 4180-style reader: records break at LF alone (not CRLF), and it is lenient after a closing quote, keeping what follows up to the next separator. With it the encoder is specified by a round trip: reading what was written gives the table back.

## Model

| member | source | states |
|---|---|---|
| Attendance.Toggled | app/attendance/page.tsx:40-45 | After a toggle the cell exists, no other date appears, and exactly the chosen (date, person, meal) status is negated; every other status is unchanged. A status is read as `getMealStatus` reads it: false when the date or the person has no entry. |
| Attendance.ToggleTwiceRestores | app/attendance/page.tsx:42-45 | Toggling the same cell twice restores every status, and restores the book itself when the entry already existed. |
| Attendance.AttendanceSheet.ToggleMeal | app/attendance/page.tsx:40-49 | The in-place update (copy, create the missing date and person entries, flip) leaves exactly `Toggled(old book, selectedDate, person, meal)`. |
| Attendance.AttendanceSheet.constructor | app/attendance/page.tsx:21-24 | The page starts with no people, an empty book and no selected date or month. |
| Attendance.AttendanceSheet.Load | app/attendance/page.tsx:26-36 | Stored names and a stored book replace the empty ones when present, and are kept otherwise. The selected date becomes today's ISO date, and the selected month its first seven characters. |
| Attendance.JsYear | app/attendance/page.tsx:58 | The `Date` constructor's year keeps its last two digits and never lies in 0 to 99; any other year is kept. |
| Attendance.MonthDates | app/attendance/page.tsx:62-74 | The month's intended list has one date per day of the month. |
| Attendance.MealRecord.Flip | app/attendance/page.tsx:45 | Flipping a meal negates that meal and keeps the other two. |
| Attendance.MealRecord.PresentMeals | app/attendance/page.tsx:85 | The count of marked meals is at most 3, and positive exactly when some meal is marked. |
| Attendance.DaysInMonthFromYYYYMM | app/attendance/page.tsx:56-60 | The month length is 28 to 31: February has 29 days exactly in leap years, April, June, September and November have 30, and the rest have 31. |
| Attendance.IterateDatesInMonth | app/attendance/page.tsx:62-74 | The loop yields `MonthDates(ym)`: one `YYYY-MM-DD` string per day 1 to the month's length. |
| Attendance.MonthDatesAscending | app/attendance/page.tsx:68-72 | The dates are in strictly increasing string order, so none repeats. |
| Attendance.MonthDatesInMonth | app/attendance/page.tsx:62-72 | For years from 0100 on, every date is 10 characters long and starts with the month string it was built from. (Years 0000 to 0099 are read as 1900 to 1999 by the `Date` constructor, so their dates start with another year.) |
| Attendance.MonthDatesAsWritten | app/attendance/page.tsx:69-70 | The loop as written yields as many dates as the month has days; east of UTC each is the UTC date of local midnight, which is the day before. |
| Attendance.AsWrittenWestOfUtc | app/attendance/page.tsx:69-70 | At UTC or west of it, the loop as written yields the intended dates. |
| Attendance.IsoDateInjective | app/attendance/page.tsx:70 | Different (year, month, day) triples print as different ISO dates. |
| Attendance.AsWrittenEastOfUtcMissesLastDay | app/attendance/page.tsx:69-70 | East of UTC the loop as written never yields the month's last day, and its first date lies outside the month. |
| Attendance.AsWrittenOctober2025 | app/attendance/page.tsx:69-70 | For "2025-10" at UTC+5 the list starts with "2025-09-30" and lacks "2025-10-31". |
| Attendance.SummaryBounded | app/attendance/page.tsx:80-91 | Every summary row (`SummaryFor` of a person over a month's dates) keeps `maxMeals = 3 × days`, `0 ≤ mealsAttended ≤ maxMeals`, `daysPresent ≤ mealsAttended`, `daysPresent ≤ days` and `daysPresent + daysAbsent = days`. |
| Attendance.MealsOnCountsStatuses | app/attendance/page.tsx:83-85 | A day's meal count is the number of meals whose status lookup is true. |
| Attendance.DaysPresentCountsAttendedDays | app/attendance/page.tsx:84-87 | `daysPresent` is the number of dates on which at least one meal is marked. |
| Attendance.ComputeMonthlySummary | app/attendance/page.tsx:76-100 | The nested counting loops yield one row per person, in list order, equal to the summary over the month's dates, and each row keeps the bounds above. |
| ExpenseSearch.FilteredExpenses | app/dashboard/page.tsx:520-533 | The shown expenses are a subsequence of the input: exactly the records matching the trimmed, lower-cased query (`MatchesQuery`: empty, or found in the lower-cased item or buyer name or in the quantity's text) and lying in the date window, each as many times as in the input. When a bound is set, every kept record has a non-empty date on the right side of it. |
| ExpenseSearch.QuantityText | app/dashboard/page.tsx:528 | `String(quantity \|\| '')` is empty exactly for a zero quantity; otherwise it reads back as the quantity, with a leading '-' when negative, and has no leading zero. |
| ExpenseSearch.MatchesQueryIgnoresCase | app/dashboard/page.tsx:525-528 | A record matches a query exactly when the record with lower-cased item and buyer names does: the search ignores their letter case. |
| ExpenseSearch.UnfilteredShowsAll | app/dashboard/page.tsx:521-531 | With a blank query and no date bounds, every expense is shown. |
| ExpenseSearch.FilterTwiceIsOnce | app/dashboard/page.tsx:522-532 | Filtering the filtered list again changes nothing. |
| Analytics.PeopleMapLookup | app/dashboard/page.tsx:473-475 | An id is in the people dictionary (`PeopleMapOf`) exactly when some row has it, and it maps to the label of the last row with that id: its name, or 'Unknown' when the name is blank. |
| Analytics.BuildPeopleMap | app/dashboard/page.tsx:474-475 | The `forEach` over the people rows builds `PeopleMapOf(people)`. |
| Analytics.TallyMeals | app/dashboard/page.tsx:478-484 | The meal loop builds the dictionary `TallyOf(meals)`, which lists every name once and holds each name's counts. |
| Analytics.TallyOfInOrder | app/dashboard/page.tsx:478-486 | The dictionary's names are listed in the order they first occur among the meal rows. |
| Analytics.TallyOfTallied | app/dashboard/page.tsx:478-484 | The dictionary `TallyOf` builds after any prefix of the meal rows lists each name once, holds exactly the names met so far, and holds each name's breakfast, lunch, dinner and total counts. |
| Analytics.MealTallyStep | app/dashboard/page.tsx:480-483 | One more meal row, registered with zero counts when its name is new and then counted, keeps the dictionary in step with the rows read. |
| Analytics.CountsForSnoc | app/dashboard/page.tsx:482-483 | One more row adds one to its name's count of its meal type and to its total, and changes no other name. |
| Analytics.MealKindsAddUp | app/dashboard/page.tsx:481-483 | For every name, total = breakfast + lunch + dinner. |
| Analytics.AllMealsTotal | app/dashboard/page.tsx:479-484 | Weighing each meal row 1, all rows add up to the number of rows. |
| Analytics.MealTotals | app/dashboard/page.tsx:478-486 | The meals view has one row per name, in order of first occurrence, no name twice. Every meal's name (its person's name, or 'Unknown' when the id is unresolved or the name blank) has a row, and every row's name comes from some meal. Each row holds its name's counts, with total = breakfast + lunch + dinner. The row totals sum to the number of meal rows. |
| Analytics.MealRowsCounted | app/dashboard/page.tsx:486 | Each listed row holds its name's counts, and its total is the sum of the three kinds. |
| Analytics.MealRowsAddUp | app/dashboard/page.tsx:486 | The listed rows' totals add up to the number of meal rows. |
| Analytics.NamesCovered | app/dashboard/page.tsx:479-486 | The listed names are exactly the names the meals are counted under. |
| Analytics.AsWrittenMealRows | app/dashboard/page.tsx:478-486 | On a plain `{}` dictionary no row carries a name inherited from `Object.prototype`, and the rows add up to the number of meals under other names. |
| Analytics.AsWrittenUndercounts | app/dashboard/page.tsx:479-486 | One meal under an inherited name makes the plain-dictionary rows add up to fewer than the meals. |
| Analytics.AsWrittenLosesConstructor | app/dashboard/page.tsx:479-486 | One breakfast of a person named "constructor" gives no row at all. |
| Analytics.TallyExpenses | app/dashboard/page.tsx:502-506 | The expense loop builds `TallyEntries` of the rows: the keys in order of first occurrence (`KeysInOrder`), each listed once and mapped to the sum of `total_price` over that key's rows. |
| Analytics.ExpenseTotals | app/dashboard/page.tsx:502-508 | The buyer or item view has one row per key, in order of first occurrence, no key twice. Every row's key comes from some expense and every expense's key (its item or buyer name, or 'Unknown' when blank) has a row. Each row holds the sum over its key's rows. The row totals sum to the sum of `total_price` over all rows. |
| Analytics.KeyTotalsWeighed | app/dashboard/page.tsx:508 | Each listed row holds its key's total. |
| Analytics.KeyTotalsAddUp | app/dashboard/page.tsx:502-508 | The listed totals add up to the sum of `total_price` over all rows. |
| Analytics.KeysCovered | app/dashboard/page.tsx:503-508 | The listed keys are exactly the rows' keys. |
| Analytics.ExpenseEntriesTotal | app/dashboard/page.tsx:505 | The weights of the expense rows add up to the sum of their `total_price`. |
| Tally.TallyEntriesTallied | app/dashboard/page.tsx:502-508 | Adding the rows one at a time lists the keys in order of first occurrence, each once, with the sum of its rows' weights. |
| Tally.KeysInOrderListed | app/dashboard/page.tsx:508 | The keys in order of first occurrence list every key of the rows once and nothing else. |
| Tally.KeysInOrderFirstSeen | app/dashboard/page.tsx:508 | Of two listed keys, the earlier one occurs among the rows before any row with the later one. |
| Tally.TallyStep | app/dashboard/page.tsx:505 | Adding a row's weight to its key's total (starting from 0 for a new key) keeps the dictionary equal to the per-key sums of the rows read, registering a new key at the end. |
| Tally.KeysListedSnoc | app/dashboard/page.tsx:505 | Appending a row appends its key to the key list exactly when the key is new. |
| Tally.WeightAbsent | app/dashboard/page.tsx:505 | A key that no row has weighs nothing. |
| Tally.SumOverIsTotal | app/dashboard/page.tsx:502-508 | Conservation: when the keys list every row's key once, the per-key totals sum to the sum of all weights. |
| Tally.ListedTotalsAddUp | app/dashboard/page.tsx:508 | The totals listed for a finished dictionary add up to the sum of all weights. |
| Dashboard.FindMeal | app/dashboard/page.tsx:417 | `find` returns None exactly when no record is in the cell; otherwise it returns the first record of the cell. |
| Dashboard.IsMealChecked | app/dashboard/page.tsx:443-446 | A box is checked exactly when some record is in its cell. |
| Dashboard.ToggledRecords | app/dashboard/page.tsx:415-441 | A failed write leaves the records unchanged. |
| Dashboard.ToggleFlipsChecked | app/dashboard/page.tsx:415-446 | With at most one record per cell, a successful toggle flips `isMealChecked` for its cell. |
| Dashboard.ToggleRemovesOnlyThatRecord | app/dashboard/page.tsx:421 | The remove path keeps a subsequence of the records: exactly those whose id differs from the found record's. |
| Dashboard.ToggleKeepsOtherCells | app/dashboard/page.tsx:415-446 | When ids identify records, a successful toggle leaves every other check box unchanged. |
| Dashboard.AsWrittenDoubleClickInsertsTwice | app/dashboard/page.tsx:415-441 | Two clicks on an unchecked box whose handlers both read the records before the first insert returns (`InterleavedToggles`) leave two records in the cell; a later click removes one of them and the box stays checked. |
| Dashboard.ToggleKeepsInvariants | app/dashboard/page.tsx:415-441 | A toggle preserves "one record per cell". Given a fresh id for a new row, it also preserves "ids identify records". |
| Dashboard.DashboardPage.ToggleMealForToday | app/dashboard/page.tsx:415-441 | The handler's step-by-step update (remove, then roll back or insert first) leaves exactly `ToggledRecords(old records, …)`. |
| Dashboard.DashboardPage.DeleteExpense | app/dashboard/page.tsx:333-345 | A cancelled or failed delete leaves the list exactly as it was. A successful one leaves the old list filtered by `id !== id`, so no expense with that id remains. |
| Dashboard.DashboardPage.DeletePerson | app/dashboard/page.tsx:385-397 | The same optimistic removal with rollback, on the people list. |
| Dashboard.DashboardPage.VisibleExpenses | app/dashboard/page.tsx:520-533 | The table shows a subsequence of the loaded expenses: exactly those matching the trimmed, lower-cased search query and lying in the date window, each as many times as it was loaded. |
| Dashboard.DashboardPage.LoadAnalytics | app/dashboard/page.tsx:454-512 | The handler records the range and mode. A failed query leaves the table as it was. Otherwise the table lists the person names, or the item or buyer keys, in order of first occurrence (`KeysInOrder`, so no name twice), each with its own meal counts or price total, and the rows sum to the number of meals or to the total spent. |
| Dashboard.DashboardPage.constructor | app/dashboard/page.tsx:216-226 | The page starts with empty lists, monthly range, meals mode, an empty query and no date bounds. |
| Dashboard.Capitalize | app/dashboard/page.tsx:514-517 | The result has the same length and the same lower-case form. Its first character is not a lower-case letter, and the rest is unchanged. The empty string stays empty. |
| Dashboard.CapitalizeIdempotent | app/dashboard/page.tsx:514-517 | Capitalizing twice is the same as capitalizing once. |
| Dashboard.ExpenseForm.AutoTotalEffect | app/dashboard/page.tsx:259-263 | The effect recomputes the total only when the quantity or the unit price changed since the last render. |
| Dashboard.ExpenseForm.SetQuantity | app/dashboard/page.tsx:259-263 | Typing a different quantity makes the total quantity × unit price, with an empty unit price read as 0. Typing the same quantity leaves the total alone. |
| Dashboard.ExpenseForm.SetPricePerUnit | app/dashboard/page.tsx:259-263 | Typing a different unit price makes the total quantity × unit price. Typing the same one leaves the total alone. |
| Dashboard.ExpenseForm.LoadForEdit | app/dashboard/page.tsx:320-331 | The form is filled from the stored row, with a zero quantity reading as 1. The stored total is kept unless the quantity or unit price changed, in which case it is recomputed. |
| Dashboard.ExpenseForm.Reset | app/dashboard/page.tsx:307-314 | The form goes back to its initial values with the given date, and its total is consistent. |
| Dashboard.ExpenseForm.constructor | app/dashboard/page.tsx:199-206 | The form starts empty with quantity 1 and total 0. |
| Csv.JoinSnoc | app/dashboard/page.tsx:539 | Joining two or more items gives the join of all but the last, one separator, then the last item. |
| Csv.QuotedRoundTrip | app/dashboard/page.tsx:539 | Reading an escaped cell up to its closing quote gives the cell back. |
| Csv.RawRoundTrip | app/dashboard/page.tsx:539 | A bare cell with no comma and no line break reads back unchanged. |
| Csv.FieldRoundTrip | app/dashboard/page.tsx:539 | Reading back the encoding of a cell gives the cell, followed by the rest of the line, whenever the quoting test selects the cell or it is safe to leave bare (no comma, line break or leading quote). |
| Csv.RecordRoundTrip | app/dashboard/page.tsx:539 | A row encoded by `EncodeRow` (its cells encoded and joined by ',') reads back as that row. |
| Csv.EncodeRoundTrip | app/dashboard/page.tsx:539 | A table encoded by `Encode` (its rows encoded and joined by '\n') reads back as the table, whenever the table has at least one row, no row is empty and every cell is quoted or safe bare. |
| Csv.CsvQuotedRoundTrip | app/dashboard/page.tsx:539 | With RFC 4180 quoting (on ',', '"', CR or LF) every table with at least one row and no empty row reads back unchanged. |
| Csv.EmptyTablesReadAsOneCell | app/dashboard/page.tsx:539 | A table with no rows and a table with one empty row are both written as the empty string, which reads back as one row holding one empty cell. |
| Csv.CsvAsWrittenRoundTrip | app/dashboard/page.tsx:539 | The export as written (`CsvAsWritten`, quoting only cells with a comma) reads back for a table with at least one row and no empty row whenever no bare cell holds a line break or opens with a quote. |
| Csv.AsWrittenSplitsLineBreak | app/dashboard/page.tsx:539 | The one-cell table `a<LF>b` is exported bare and reads back as two rows. |
| Csv.AsWrittenDropsQuotes | app/dashboard/page.tsx:539 | The one-cell table `"x"` is exported bare and reads back as `x`. |
| People.PeopleList.AddPerson | app/people/page.tsx:13-27 | A name blank after trimming is refused. So is a name whose trimmed form is already listed. Either way the list and the field are unchanged. Otherwise the trimmed name is appended at the end and the field cleared. The list stays duplicate-free and trimmed. |
| People.PeopleList.RemovePerson | app/people/page.tsx:29-33 | Exactly the entry at the index is removed, the others staying in order. An out-of-range index changes nothing. The list stays well formed. |
| People.PeopleList.constructor | app/people/page.tsx:5-6 | The page starts with an empty list and an empty field. |
| People.PeopleList.Load | app/people/page.tsx:8-11 | A stored list replaces the current one, and nothing stored keeps it. The list is well formed afterwards when the stored list is, or when nothing was stored and it was before. |
| People.AppendKeepsWellFormed | app/people/page.tsx:18-23 | Appending a new trimmed name keeps the list free of duplicates. |
| People.RemovalKeepsWellFormed | app/people/page.tsx:30 | Removing an entry keeps the list free of duplicates. |
| LocalExpenses.ExpenseSheet.AddExpense | app/expenses/page.tsx:16-31 | If any field is empty the add is refused and nothing changes. Otherwise exactly one entry built from the four fields is appended at the end and all four fields are emptied. |
| LocalExpenses.ExpenseSheet.DeleteExpense | app/expenses/page.tsx:33-37 | Exactly the entry at the index is removed, the others staying in order. An out-of-range index changes nothing. |
| LocalExpenses.ExpenseSheet.constructor | app/expenses/page.tsx:5-9 | The page starts with an empty list and empty fields. |
| LocalExpenses.ExpenseSheet.Load | app/expenses/page.tsx:11-14 | A stored list of entries replaces the current one, and nothing stored keeps it. |
| Lists.Filter | app/dashboard/page.tsx:336 | `filter` keeps a subsequence: exactly the elements satisfying the predicate, each as many times as it occurs. |
| Lists.FilterKeepsAll | app/dashboard/page.tsx:522 | A predicate true everywhere keeps the whole list. |
| Lists.FilterIdempotent | app/dashboard/page.tsx:522 | Filtering twice is filtering once. |
| Lists.WithoutIndex | app/people/page.tsx:30 | `filter((_, i) => i !== index)` drops the element at the index and keeps the rest; an out-of-range index keeps everything. |
| Lists.WithoutIndexIsSubsequence | app/expenses/page.tsx:34 | Removal by index keeps a subsequence. |
| Lists.SubsequenceKeepsNoDuplicates | app/people/page.tsx:30 | A subsequence of a duplicate-free list is duplicate-free. |
| Text.Trim | app/people/page.tsx:14 | `trim` is the slice of the input between its leading and its trailing white space. It is empty exactly on all-white-space input; otherwise it begins and ends with a non-space character. |
| Text.TrimIdempotent | app/people/page.tsx:18-23 | Trimming a trimmed string changes nothing. |
| Text.ToLower | app/dashboard/page.tsx:521 | Lower-casing maps each character on its own, keeps the length, and leaves no upper-case ASCII letter. |
| Text.ToLowerIdempotent | app/dashboard/page.tsx:521 | Lower-casing a lower-cased string changes nothing. |
| Text.ToLowerAppend | app/dashboard/page.tsx:521 | Lower-casing a concatenation is the concatenation of the lower-cased parts. |
| Text.Includes | app/dashboard/page.tsx:526-528 | `includes` holds exactly when the query occurs at some position. |
| Text.StrLessCommonPrefix | app/dashboard/page.tsx:529-530 | A common prefix does not change the string order. |
| Text.StrLessIrreflexive | app/dashboard/page.tsx:529-530 | No string is less than itself. |
| Text.StrLessTrichotomy | app/dashboard/page.tsx:529-530 | Two strings differ exactly when one is less than the other, and never is each less than the other. |
| Text.StrLessTransitive | app/dashboard/page.tsx:529-530 | The string order `<` is transitive. |
| Text.StrLessEqOrder | app/dashboard/page.tsx:529-530 | `<=` on strings is transitive and antisymmetric, so the `from`/`to` bounds cut out an interval of dates. |
| Text.IntToString | app/dashboard/page.tsx:528 | `String(n)` is non-empty; for `n ≥ 0` it is a digit string reading back as `n`, and for negative `n` it is '-' followed by the digits of `-n`. There is no leading zero except in "0" itself, so the printed digits are the canonical ones. |
| Text.Pad2Value | app/attendance/page.tsx:70 | A two-digit field reads back as its number. |
| Text.Pad4OfValue | app/attendance/page.tsx:63-64 | A four-digit year string is the padded form of its value. |
| Text.Pad2Ordered | app/attendance/page.tsx:68-71 | Two-digit day numbers are ordered as strings like their values. |
| Text.NatToString | app/dashboard/page.tsx:528 | The decimal form of a number is a non-empty digit string that reads back as the number and starts with '0' exactly when the number is 0, which is then the whole string. |

## Left out

- Browser storage (`localStorage`) and the record store are not modelled as I/O. What they hold and the outcomes of their calls are parameters: the `Load` methods of `People.PeopleList`, `LocalExpenses.ExpenseSheet` and `Attendance.AttendanceSheet` take the stored values already parsed, with `None` for a missing or empty item. `JSON.parse` itself, and the exception it throws on a malformed stored value, are not modelled; nor is the refetch after a successful write.
- The clock is left out: "today" is a parameter. So is the start date of the analytics and meal queries (`setDate`/`setMonth` on `new Date()`). The rows those queries return are parameters.
- Attendance.IterateDatesInMonth models the intended local dates, and Attendance.ComputeMonthlySummary summarises over that intended list (`MonthDates`), not over the shifted list the page builds east of UTC. The UTC shift of `toISOString` is modelled separately, by `MonthDatesAsWritten` with the UTC offset as a parameter (see Findings).
- Attendance.MonthDatesAsWritten covers zones with a fixed UTC offset only. In a zone that changes offset within the month (daylight saving time) the as-written list is not modelled.
- Attendance.IsYearMonth: a month string is required to be `YYYY-MM` with a four-digit year and a month from 01 to 12, the form the month input produces. Other strings, and years beyond four digits, are not modelled.
- Attendance.DaysInMonthFromYYYYMM: `new Date(y, m, 0)` maps a year 0 to 99 onto 1900 to 1999. The model does the same through `JsYear`.
- Attendance.AttendanceSheet: the date picker's and month picker's setters are plain assignments and are not modelled as operations.
- Text.ToLower and Text.UpperChar map ASCII letters only; full Unicode case mapping is not modelled.
- Floating point is not modelled. Money is an integer number of minor units. `parseFloat` on the local expenses page is left out: LocalExpenses.ExpenseSheet.AddExpense stores the price as the text typed. `toFixed` and the percentage in the attendance table are left out too.
- Dashboard.ExpenseForm: the unit-price field's text is modelled as `Option<int>` (`None` when empty). `Number()` of non-numeric text is not modelled.
- Attendance.Toggled, Attendance.MealStatus: a date or person name that is a member of `Object.prototype` (`constructor`, `__proto__`, `toString`, …) is an ordinary key here. In the page's `{}` dictionaries it reads the inherited value, so toggling such a person writes onto a shared built-in object. This is not modelled.
- Analytics.TallyExpenses, Analytics.ExpenseTotals: a buyer or item named after a member of `Object.prototype` is an ordinary key here. In the page's `{}` dictionary a `__proto__` key loses its row and `constructor` or `toString` gets a text total. This is not modelled.
- Analytics.TallyMeals, Analytics.MealTotals: these count on a dictionary without inherited keys. What the page's `{}` does with an inherited name is Analytics.AsWrittenMealRows (see Findings).
- Dashboard.DashboardPage.ToggleMealForToday: the handler runs to completion. A click that arrives while an earlier handler awaits the store is modelled only by Dashboard.InterleavedToggles (see Findings).
- Dashboard.DashboardPage.DeleteExpense: the handler runs to completion. A rollback that overwrites a second delete completed while the first awaited the store is not modelled.
- Dashboard.DashboardPage.DeletePerson: the handler runs to completion, as for DeleteExpense.
- Strings are sequences of Unicode scalar values, not of UTF-16 code units. Text.StrLess therefore orders by code point, which differs from JavaScript only on characters above U+FFFF.
- Analytics: rows are listed in first-insertion order of their keys. The JavaScript rule that integer-like keys come first in `Object.entries` is not modelled.
- Analytics: meal types outside breakfast, lunch and dinner are not modelled; the type of a meal row is one of the three.
- The summary cards (total spent, meal count, average per day) are not modelled.
- Adding or editing an expense or a person through the store, beyond the form reset after a successful add, is not modelled.
- XLSX and PDF export, `Blob` and `saveAs` are not modelled; only the CSV string is.
- Csv.CsvQuotedRoundTrip, Csv.EncodeRoundTrip and Csv.CsvAsWrittenRoundTrip cover tables with at least one row and no empty row (`NoEmptyRows`). A table with no rows is written as the empty string, and an empty row as an empty line; both read back as one row holding one empty cell (`Csv.EmptyTablesReadAsOneCell`).
- Authentication, routing, dark mode, modals and rendering are not modelled.

## Findings

| source | as written | input that shows it | evidently intended | confidence | as-written member | corrected member |
|---|---|---|---|---|---|---|
| app/attendance/page.tsx:69-70 | Each day is built at local midnight and printed with `toISOString`, which gives the UTC date. | Month "2025-10" in a UTC+5 zone: the list runs "2025-09-30" … "2025-10-30" and lacks "2025-10-31". | The month's own dates, "2025-10-01" … "2025-10-31". | not executed | Attendance.AsWrittenOctober2025 | Attendance.IterateDatesInMonth |
| app/dashboard/page.tsx:478-486 | The meal totals live in a plain `{}`. For a name inherited from `Object.prototype`, `!totals[name]` is false, so no own row is made, and the counts land on the inherited value, which `Object.entries` does not list. | One breakfast of a person named "constructor": the chart has no row and counts 0 meals out of 1. | A dictionary without inherited keys (`new Map()` or `Object.create(null)`), so that every meal is counted under its name. | not executed | Analytics.AsWrittenLosesConstructor | Analytics.MealTotals |
| app/dashboard/page.tsx:415-441 | Each click decides insert or delete from the records it read, and the records change only after the store answers. | Two clicks on an unchecked box before the first insert returns: both insert, two records share the cell, and a third click removes only one of them, so the box stays checked. | One record per cell, each click flipping the box: clicks on a cell handled one after another. | not executed; a uniqueness constraint in the store, which is not part of this model, would refuse the second insert | Dashboard.AsWrittenDoubleClickInsertsTwice | Dashboard.ToggleKeepsInvariants |
| app/dashboard/page.tsx:539 | Only a cell containing ',' is quoted; a cell with a line break or a leading '"' is emitted bare. | The one-cell table `a<LF>b` is exported as `a<LF>b` and reads back as two rows, `a` and `b`. | Quote every cell holding ',', '"', CR or LF (RFC 4180, section 2), so that every table reads back. | not executed | Csv.AsWrittenSplitsLineBreak | Csv.CsvQuotedRoundTrip |
