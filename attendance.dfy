/**
 * The mess-attendance page: a book `date -> person -> {breakfast, lunch,
 * dinner}` kept in page state, the toggle that flips one meal on the
 * selected date, the status lookup, the calendar month's list of dates and
 * the per-person monthly summary.
 *
 * Dates are the ISO strings `YYYY-MM-DD` the page uses as keys. What browser
 * storage holds reaches `AttendanceSheet.Load` as parameters; saving the
 * book back is not part of this model.
 */
module Attendance {
  import opened Text
  import opened Lists
  import opened Meals
  import opened Optional

  /** One person's record for one day. */
  datatype MealRecord = MealRecord(breakfast: bool, lunch: bool, dinner: bool)
  {
    function Has(meal: Meal): bool
    {
      match meal
      case Breakfast => breakfast
      case Lunch => lunch
      case Dinner => dinner
    }

    /** The record with `meal` negated and the other two meals as they were. */
    function Flip(meal: Meal): (r: MealRecord)
      ensures r.Has(meal) == !Has(meal)
      ensures forall other :: other != meal ==> r.Has(other) == Has(other)
    {
      match meal
      case Breakfast => this.(breakfast := !breakfast)
      case Lunch => this.(lunch := !lunch)
      case Dinner => this.(dinner := !dinner)
    }

    /** How many of the three meals are marked, each mark counting as 1. */
    function PresentMeals(): (n: nat)
      ensures n <= 3
      ensures n > 0 <==> exists meal :: Has(meal)
    {
      assert Has(Breakfast) == breakfast && Has(Lunch) == lunch && Has(Dinner) == dinner;
      (if breakfast then 1 else 0) + (if lunch then 1 else 0) + (if dinner then 1 else 0)
    }
  }

  /** The record a person gets on a date where they had none. */
  const NoMeals := MealRecord(false, false, false)

  type Book = map<string, map<string, MealRecord>>

  /**
   * Whether `person` had `meal` on `date`: the recorded value, and false
   * whenever the date or the person has no entry.
   */
  function MealStatus(book: Book, person: string, meal: Meal, date: string): (b: bool)
    ensures !(date in book && person in book[date]) ==> !b
    ensures date in book && person in book[date] ==> b == book[date][person].Has(meal)
  {
    match Lookup(book, date, person)
    case Some(rec) => rec.Has(meal)
    case None => false
  }

  function Lookup(book: Book, date: string, person: string): Option<MealRecord>
  {
    if date in book && person in book[date] then Some(book[date][person]) else None
  }

  /**
   * The book after toggling `meal` of `person` on `date`. Missing entries are
   * created first (the person with all three meals false); then exactly that
   * one status flips.
   */
  function Toggled(book: Book, date: string, person: string, meal: Meal): (r: Book)
    ensures date in r && person in r[date]
    ensures r.Keys == book.Keys + {date}
    ensures forall d, p, m ::
              MealStatus(r, p, m, d) ==
              (if d == date && p == person && m == meal then !MealStatus(book, p, m, d) else MealStatus(book, p, m, d))
  {
    var day := if date in book then book[date] else map[];
    var rec := if person in day then day[person] else NoMeals;
    book[date := day[person := rec.Flip(meal)]]
  }

  /**
   * Toggling the same cell twice restores every status; where the entry
   * already existed, it restores the book itself.
   */
  lemma ToggleTwiceRestores(book: Book, date: string, person: string, meal: Meal)
    ensures forall d, p, m :: MealStatus(Toggled(Toggled(book, date, person, meal), date, person, meal), p, m, d)
                              == MealStatus(book, p, m, d)
    ensures date in book && person in book[date] ==>
              Toggled(Toggled(book, date, person, meal), date, person, meal) == book
  {
    if date in book && person in book[date] {
      var rec := book[date][person];
      assert rec.Flip(meal).Flip(meal) == rec by {
        match meal
        case Breakfast =>
        case Lunch =>
        case Dinner =>
      }
      var twice := Toggled(Toggled(book, date, person, meal), date, person, meal);
      assert twice[date] == book[date];
    }
  }

  /** The page's state: the people list, the attendance book and the date picked in the date input. */
  class AttendanceSheet {
    var people: seq<string>
    var attendance: Book
    var selectedDate: string
    var selectedMonth: string

    constructor ()
      ensures people == [] && attendance == map[] && selectedDate == "" && selectedMonth == ""
    {
      people, attendance, selectedDate, selectedMonth := [], map[], "", "";
    }

    /**
     * The page's first effect: the names stored under `people` and the book
     * stored under `attendance` replace the empty ones when found, and the
     * selected date and month become today's ISO date `today` and its first
     * seven characters (`YYYY-MM`).
     */
    method Load(savedPeople: Option<seq<string>>, savedAttendance: Option<Book>, today: string)
      modifies this
      ensures people == if savedPeople.Some? then savedPeople.value else old(people)
      ensures attendance == if savedAttendance.Some? then savedAttendance.value else old(attendance)
      ensures selectedDate == today
      ensures selectedMonth == if |today| >= 7 then today[..7] else today
    {
      if savedPeople.Some? {
        people := savedPeople.value;
      }
      if savedAttendance.Some? {
        attendance := savedAttendance.value;
      }
      selectedDate := today;
      selectedMonth := if |today| >= 7 then today[..7] else today;
    }

    /** Flips `meal` for `person` on the selected date, creating missing entries first. */
    method ToggleMeal(person: string, meal: Meal)
      modifies this`attendance
      ensures attendance == Toggled(old(attendance), selectedDate, person, meal)
    {
      ghost var day := if selectedDate in attendance then attendance[selectedDate] else map[];
      var updated := attendance;
      if selectedDate !in updated {
        updated := updated[selectedDate := map[]];
      }
      assert updated == attendance[selectedDate := day];
      if person !in updated[selectedDate] {
        updated := updated[selectedDate := updated[selectedDate][person := NoMeals]];
      }
      ghost var filled := if person in day then day else day[person := NoMeals];
      assert updated == attendance[selectedDate := filled];
      var rec := updated[selectedDate][person];
      assert rec == if person in day then day[person] else NoMeals;
      updated := updated[selectedDate := updated[selectedDate][person := rec.Flip(meal)]];
      assert filled[person := rec.Flip(meal)] == day[person := rec.Flip(meal)];
      assert updated == attendance[selectedDate := day[person := rec.Flip(meal)]];
      attendance := updated;
    }
  }

  /* ---------- Calendar ---------- */

  predicate IsLeapYear(y: int)
  {
    y % 4 == 0 && (y % 100 != 0 || y % 400 == 0)
  }

  /** Days in `month` (1 to 12) of the Gregorian year `year`. */
  function MonthLength(year: int, month: int): int
    requires 1 <= month <= 12
  {
    if month == 2 then (if IsLeapYear(year) then 29 else 28)
    else if month == 4 || month == 6 || month == 9 || month == 11 then 30
    else 31
  }

  /** The JavaScript `Date` constructor reads the years 0 to 99 as 1900 to 1999. */
  function JsYear(y: int): (r: int)
    ensures r % 100 == y % 100
    ensures !(0 <= r <= 99)
    ensures !(0 <= y <= 99) ==> r == y
  {
    if 0 <= y <= 99 then 1900 + y else y
  }

  /** The `YYYY-MM` strings that a month input produces. */
  predicate IsYearMonth(ym: string)
  {
    |ym| == 7 && AllDigits(ym[..4]) && ym[4] == '-' && AllDigits(ym[5..]) &&
    1 <= DigitsValue(ym[5..]) <= 12
  }

  function YearOf(ym: string): (y: int)
    requires IsYearMonth(ym)
    ensures 0 <= y < 10000
  {
    Pad4OfValue(ym[..4]);
    DigitsValue(ym[..4])
  }

  function MonthOf(ym: string): (m: int)
    requires IsYearMonth(ym)
    ensures 1 <= m <= 12
  {
    DigitsValue(ym[5..])
  }

  /** The calendar year the page's `Date` objects for `ym` fall in. */
  function CalendarYear(ym: string): (y: int)
    requires IsYearMonth(ym)
    ensures 100 <= y < 10000
  {
    JsYear(YearOf(ym))
  }

  /**
   * `new Date(y, m, 0).getDate()`: day 0 of the month after `m` is the last
   * day of month `m`, so this is the length of month `m`.
   */
  function DaysInMonthFromYYYYMM(ym: string): (n: int)
    requires IsYearMonth(ym)
    ensures 28 <= n <= 31
    ensures MonthOf(ym) == 2 ==> (n == 29 <==> IsLeapYear(CalendarYear(ym))) && (n == 28 <==> !IsLeapYear(CalendarYear(ym)))
    ensures MonthOf(ym) in {4, 6, 9, 11} ==> n == 30
    ensures MonthOf(ym) in {1, 3, 5, 7, 8, 10, 12} ==> n == 31
  {
    MonthLength(CalendarYear(ym), MonthOf(ym))
  }

  /** `YYYY-MM-DD` for a date whose year has four digits. */
  function IsoDate(year: int, month: int, day: int): (s: string)
    requires 0 <= year < 10000 && 1 <= month <= 12 && 1 <= day <= 31
    ensures |s| == 10
  {
    Pad4(year) + "-" + Pad2(month) + "-" + Pad2(day)
  }

  /** The dates of the month `ym`, day 1 first. */
  function MonthDates(ym: string): (dates: seq<string>)
    requires IsYearMonth(ym)
    ensures |dates| == DaysInMonthFromYYYYMM(ym)
  {
    var n := DaysInMonthFromYYYYMM(ym);
    seq(n, k requires 0 <= k < n => IsoDate(CalendarYear(ym), MonthOf(ym), k + 1))
  }

  /** Collects the date strings of days 1 to the month's length, one per day. */
  method IterateDatesInMonth(ym: string) returns (dates: seq<string>)
    requires IsYearMonth(ym)
    ensures dates == MonthDates(ym)
  {
    var year, month := CalendarYear(ym), MonthOf(ym);
    var days := DaysInMonthFromYYYYMM(ym);
    dates := [];
    var d := 1;
    while d <= days
      invariant 1 <= d <= days + 1
      invariant |dates| == d - 1
      invariant forall k :: 0 <= k < d - 1 ==> dates[k] == IsoDate(year, month, k + 1)
    {
      dates := dates + [IsoDate(year, month, d)];
      d := d + 1;
    }
  }

  /** The dates come out in strictly increasing string order, so the list has no repeats. */
  lemma MonthDatesAscending(ym: string)
    requires IsYearMonth(ym)
    ensures forall i, j :: 0 <= i < j < |MonthDates(ym)| ==> StrLess(MonthDates(ym)[i], MonthDates(ym)[j])
  {
    var dates := MonthDates(ym);
    var prefix := Pad4(CalendarYear(ym)) + "-" + Pad2(MonthOf(ym)) + "-";
    forall i, j | 0 <= i < j < |dates| ensures StrLess(dates[i], dates[j]) {
      assert dates[i] == IsoDate(CalendarYear(ym), MonthOf(ym), i + 1);
      assert dates[j] == IsoDate(CalendarYear(ym), MonthOf(ym), j + 1);
      assert dates[i] == prefix + Pad2(i + 1);
      assert dates[j] == prefix + Pad2(j + 1);
      Pad2Ordered(i + 1, j + 1);
      StrLessCommonPrefix(prefix, Pad2(i + 1), Pad2(j + 1));
    }
  }

  /** For years from 0100 on, every date starts with the month string it was made from. */
  lemma MonthDatesInMonth(ym: string)
    requires IsYearMonth(ym) && YearOf(ym) >= 100
    ensures forall k :: 0 <= k < |MonthDates(ym)| ==> |MonthDates(ym)[k]| == 10 && MonthDates(ym)[k][..7] == ym
  {
    Pad4OfValue(ym[..4]);
    Pad2OfValue(ym[5..]);
    assert ym == ym[..4] + "-" + ym[5..];
    var dates := MonthDates(ym);
    forall k | 0 <= k < |dates| ensures |dates[k]| == 10 && dates[k][..7] == ym {
      var prefix := Pad4(CalendarYear(ym)) + "-" + Pad2(MonthOf(ym));
      assert dates[k] == IsoDate(CalendarYear(ym), MonthOf(ym), k + 1);
      assert dates[k] == prefix + "-" + Pad2(k + 1);
      assert prefix == ym;
    }
  }

  /* ---------- The date loop as written ---------- */

  /** The ISO date of the calendar day before `day` of `month` in `year`. */
  function IsoDayBefore(year: int, month: int, day: int): string
    requires 1 <= year < 10000 && 1 <= month <= 12 && 1 <= day <= 31
  {
    if day > 1 then IsoDate(year, month, day - 1)
    else if month > 1 then IsoDate(year, month - 1, MonthLength(year, month - 1))
    else IsoDate(year - 1, 12, 31)
  }

  /**
   * The dates the page's loop yields as written: each day is built at local
   * midnight and printed with `toISOString`, which gives the UTC date. With
   * the clock east of UTC (a positive offset of at most 14 hours) local
   * midnight is still the previous day in UTC.
   */
  function MonthDatesAsWritten(ym: string, utcOffsetMinutes: int): (dates: seq<string>)
    requires IsYearMonth(ym) && -720 <= utcOffsetMinutes <= 840
    ensures |dates| == DaysInMonthFromYYYYMM(ym)
  {
    var n := DaysInMonthFromYYYYMM(ym);
    var year, month := CalendarYear(ym), MonthOf(ym);
    seq(n, k requires 0 <= k < n =>
      if utcOffsetMinutes > 0 then IsoDayBefore(year, month, k + 1) else IsoDate(year, month, k + 1))
  }

  /** At UTC or west of it the loop as written yields the intended dates. */
  lemma AsWrittenWestOfUtc(ym: string, utcOffsetMinutes: int)
    requires IsYearMonth(ym) && -720 <= utcOffsetMinutes <= 0
    ensures MonthDatesAsWritten(ym, utcOffsetMinutes) == MonthDates(ym)
  {
  }

  /** Different dates print differently. */
  lemma IsoDateInjective(y1: int, m1: int, d1: int, y2: int, m2: int, d2: int)
    requires 0 <= y1 < 10000 && 1 <= m1 <= 12 && 1 <= d1 <= 31
    requires 0 <= y2 < 10000 && 1 <= m2 <= 12 && 1 <= d2 <= 31
    requires IsoDate(y1, m1, d1) == IsoDate(y2, m2, d2)
    ensures y1 == y2 && m1 == m2 && d1 == d2
  {
    IsoDateParts(y1, m1, d1);
    IsoDateParts(y2, m2, d2);
    Pad2Value(y1 / 100); Pad2Value(y2 / 100);
    Pad2Value(y1 % 100); Pad2Value(y2 % 100);
    Pad2Value(m1); Pad2Value(m2);
    Pad2Value(d1); Pad2Value(d2);
  }

  /** Where the century, the year in the century, the month and the day stand in an ISO date. */
  lemma IsoDateParts(y: int, m: int, d: int)
    requires 0 <= y < 10000 && 1 <= m <= 12 && 1 <= d <= 31
    ensures var s := IsoDate(y, m, d);
            s[..2] == Pad2(y / 100) && s[2..4] == Pad2(y % 100) && s[5..7] == Pad2(m) && s[8..] == Pad2(d)
  {
    var s := IsoDate(y, m, d);
    assert s == Pad2(y / 100) + Pad2(y % 100) + "-" + Pad2(m) + "-" + Pad2(d);
  }

  /**
   * East of UTC the loop as written never yields the last day of the month,
   * and its first date lies in the month before.
   */
  lemma AsWrittenEastOfUtcMissesLastDay(ym: string, utcOffsetMinutes: int)
    requires IsYearMonth(ym) && 0 < utcOffsetMinutes <= 840
    ensures var last := IsoDate(CalendarYear(ym), MonthOf(ym), DaysInMonthFromYYYYMM(ym));
            last in MonthDates(ym) && last !in MonthDatesAsWritten(ym, utcOffsetMinutes)
    ensures MonthDatesAsWritten(ym, utcOffsetMinutes)[0] !in MonthDates(ym)
  {
    var year, month, n := CalendarYear(ym), MonthOf(ym), DaysInMonthFromYYYYMM(ym);
    var asWritten, intended := MonthDatesAsWritten(ym, utcOffsetMinutes), MonthDates(ym);
    var last := IsoDate(year, month, n);
    assert intended[n - 1] == last;
    forall k | 0 <= k < n ensures asWritten[k] != last {
      assert asWritten[k] == IsoDayBefore(year, month, k + 1);
      if asWritten[k] == last {
        if k > 0 {
          assert asWritten[k] == IsoDate(year, month, k);
          IsoDateInjective(year, month, k, year, month, n);
        } else if month > 1 {
          IsoDateInjective(year, month - 1, MonthLength(year, month - 1), year, month, n);
        } else {
          IsoDateInjective(year - 1, 12, 31, year, month, n);
        }
      }
    }
    assert asWritten[0] == IsoDayBefore(year, month, 1);
    forall k | 0 <= k < n ensures intended[k] != asWritten[0] {
      assert intended[k] == IsoDate(year, month, k + 1);
      if intended[k] == asWritten[0] {
        if month > 1 {
          IsoDateInjective(year, month - 1, MonthLength(year, month - 1), year, month, k + 1);
        } else {
          IsoDateInjective(year - 1, 12, 31, year, month, k + 1);
        }
      }
    }
  }

  /** The month string "2025-10" reads as October 2025, which has 31 days. */
  lemma October2025Parsed()
    ensures IsYearMonth("2025-10")
    ensures CalendarYear("2025-10") == 2025 && MonthOf("2025-10") == 10
    ensures DaysInMonthFromYYYYMM("2025-10") == 31
  {
    var ym := "2025-10";
    assert ym[..4] == "2025";
    assert ym[5..] == "10";
    Digits2025();
    Digits10();
  }

  lemma Digits2025()
    ensures AllDigits("2025") && DigitsValue("2025") == 2025
  {
    assert "2025"[..3] == "202" && "202"[..2] == "20" && "20"[..1] == "2" && "2"[..0] == "";
  }

  lemma Digits10()
    ensures AllDigits("10") && DigitsValue("10") == 10
  {
    assert "10"[..1] == "1" && "1"[..0] == "";
  }

  /** October 2025 in a UTC+5 zone: the list starts on 30 September and lacks 31 October. */
  lemma AsWrittenOctober2025()
    ensures IsYearMonth("2025-10")
    ensures MonthDatesAsWritten("2025-10", 300)[0] == "2025-09-30"
    ensures MonthDates("2025-10")[0] == "2025-10-01"
    ensures "2025-10-31" in MonthDates("2025-10") && "2025-10-31" !in MonthDatesAsWritten("2025-10", 300)
  {
    October2025Parsed();
    assert Pad4(2025) == "2025" && Pad2(10) == "10" && Pad2(9) == "09";
    assert Pad2(1) == "01" && Pad2(30) == "30" && Pad2(31) == "31";
    assert MonthDatesAsWritten("2025-10", 300)[0] == IsoDayBefore(2025, 10, 1) == IsoDate(2025, 9, 30);
    assert MonthDates("2025-10")[0] == IsoDate(2025, 10, 1);
    assert IsoDate(2025, 10, 31) == "2025-10-31";
    AsWrittenEastOfUtcMissesLastDay("2025-10", 300);
  }

  /* ---------- Monthly summary ---------- */

  datatype SummaryRow = SummaryRow(person: string, mealsAttended: int, maxMeals: int, daysPresent: int, daysAbsent: int)

  /** The meals `person` had on `date`: 0 when there is no record. */
  function MealsOn(book: Book, date: string, person: string): nat
  {
    match Lookup(book, date, person)
    case Some(rec) => rec.PresentMeals()
    case None => 0
  }

  /** Meals attended over `dates`. */
  function MealsAttended(book: Book, dates: seq<string>, person: string): nat
  {
    if dates == [] then 0
    else MealsAttended(book, dates[..|dates| - 1], person) + MealsOn(book, dates[|dates| - 1], person)
  }

  /** Days among `dates` with at least one meal. */
  function DaysPresent(book: Book, dates: seq<string>, person: string): nat
  {
    if dates == [] then 0
    else DaysPresent(book, dates[..|dates| - 1], person) + (if MealsOn(book, dates[|dates| - 1], person) > 0 then 1 else 0)
  }

  /** The summary row for `person` over `dates`. */
  function SummaryFor(book: Book, dates: seq<string>, person: string): SummaryRow
  {
    var present := DaysPresent(book, dates, person);
    SummaryRow(person, MealsAttended(book, dates, person), |dates| * 3, present, |dates| - present)
  }

  /** The bounds every summary row keeps for a month of `days` days. */
  predicate RowBounded(row: SummaryRow, days: int)
  {
    && row.maxMeals == 3 * days
    && 0 <= row.mealsAttended <= row.maxMeals
    && 0 <= row.daysPresent <= row.mealsAttended
    && row.daysPresent <= days
    && row.daysPresent + row.daysAbsent == days
  }

  /**
   * Meals attended are at most three a day, and every present day has at
   * least one meal, so the row keeps its bounds.
   */
  lemma {:induction false} SummaryBounded(book: Book, dates: seq<string>, person: string)
    ensures RowBounded(SummaryFor(book, dates, person), |dates|)
  {
    if dates != [] {
      SummaryBounded(book, dates[..|dates| - 1], person);
    }
  }

  /** A date's meal count is the number of meals whose status lookup says true. */
  lemma MealsOnCountsStatuses(book: Book, date: string, person: string)
    ensures MealsOn(book, date, person) ==
      (if MealStatus(book, person, Breakfast, date) then 1 else 0) +
      (if MealStatus(book, person, Lunch, date) then 1 else 0) +
      (if MealStatus(book, person, Dinner, date) then 1 else 0)
  {
  }

  /** `person` had at least one meal on `date`. */
  predicate AttendedOn(book: Book, person: string, date: string)
  {
    exists meal :: MealStatus(book, person, meal, date)
  }

  /** A day counts as present exactly when one of its three meals is marked. */
  lemma {:induction false} DaysPresentCountsAttendedDays(book: Book, dates: seq<string>, person: string)
    ensures DaysPresent(book, dates, person) == |Filter(dates, d => AttendedOn(book, person, d))|
  {
    var p := d => AttendedOn(book, person, d);
    if dates != [] {
      var n := |dates| - 1;
      assert dates == dates[..n] + [dates[n]];
      DaysPresentCountsAttendedDays(book, dates[..n], person);
      FilterSnoc(dates[..n], dates[n], p);
      AttendedIffMeals(book, dates[n], person);
    }
  }

  lemma AttendedIffMeals(book: Book, date: string, person: string)
    ensures MealsOn(book, date, person) > 0 <==> AttendedOn(book, person, date)
  {
    if Lookup(book, date, person).Some? {
      var rec := book[date][person];
      assert forall meal :: MealStatus(book, person, meal, date) == rec.Has(meal);
    }
  }

  lemma {:induction false} FilterSnoc<T(!new)>(xs: seq<T>, x: T, p: T -> bool)
    ensures |Filter(xs + [x], p)| == |Filter(xs, p)| + (if p(x) then 1 else 0)
  {
    if xs == [] {
      assert xs + [x] == [x];
    } else {
      assert (xs + [x])[1..] == xs[1..] + [x];
      FilterSnoc(xs[1..], x, p);
    }
  }

  /**
   * One row per person in list order, counting the meals and the present
   * days over every date of the month `ym`.
   */
  method ComputeMonthlySummary(people: seq<string>, book: Book, ym: string) returns (rows: seq<SummaryRow>)
    requires IsYearMonth(ym)
    ensures |rows| == |people|
    ensures forall i :: 0 <= i < |rows| ==> rows[i] == SummaryFor(book, MonthDates(ym), people[i])
    ensures forall i :: 0 <= i < |rows| ==> rows[i].person == people[i] && RowBounded(rows[i], DaysInMonthFromYYYYMM(ym))
  {
    var dates := IterateDatesInMonth(ym);
    var daysCount := |dates|;
    rows := [];
    var i := 0;
    while i < |people|
      invariant 0 <= i <= |people| && |rows| == i
      invariant forall k :: 0 <= k < i ==> rows[k] == SummaryFor(book, dates, people[k])
    {
      var person := people[i];
      var mealsAttended, daysPresent := 0, 0;
      var j := 0;
      while j < |dates|
        invariant 0 <= j <= |dates|
        invariant mealsAttended == MealsAttended(book, dates[..j], person)
        invariant daysPresent == DaysPresent(book, dates[..j], person)
      {
        var date := dates[j];
        if date in book && person in book[date] {
          var rec := book[date][person];
          var presentMeals := rec.PresentMeals();
          mealsAttended := mealsAttended + presentMeals;
          if presentMeals > 0 {
            daysPresent := daysPresent + 1;
          }
        }
        assert dates[..j + 1][..j] == dates[..j];
        j := j + 1;
      }
      assert dates[..j] == dates;
      var maxMeals := daysCount * 3;
      var daysAbsent := daysCount - daysPresent;
      rows := rows + [SummaryRow(person, mealsAttended, maxMeals, daysPresent, daysAbsent)];
      i := i + 1;
    }
    forall k | 0 <= k < |rows| ensures RowBounded(rows[k], daysCount) {
      SummaryBounded(book, dates, people[k]);
    }
  }
}
