/**
 * The dashboard page's record state and the handlers that change it: the
 * optimistic deletes with rollback, today's meal check boxes, the analytics
 * panel, and the expense form whose total follows quantity and unit price.
 * Every call to the record store is a parameter: the outcome of a write,
 * the id the store gives a new row, the rows a query returns.
 */
module Dashboard {
  import opened Text
  import opened Lists
  import opened Optional
  import opened Meals
  import opened DashboardData
  import opened ExpenseSearch
  import opened Tally
  import opened Analytics

  /** `capitalize(s)`: the first character upper-cased, the rest unchanged; the empty string stays empty. */
  function Capitalize(s: string): (r: string)
    ensures |r| == |s|
    ensures ToLower(r) == ToLower(s)
    ensures r == [] || !('a' <= r[0] <= 'z')
    ensures |r| > 0 ==> r[1..] == s[1..]
  {
    if s == [] then s else [UpperChar(s[0])] + s[1..]
  }

  /** Capitalizing a capitalized string changes nothing. */
  lemma CapitalizeIdempotent(s: string)
    ensures Capitalize(Capitalize(s)) == Capitalize(s)
  {
    if s != [] {
      var c := Capitalize(s);
      assert UpperChar(c[0]) == c[0];
      assert [c[0]] + c[1..] == c;
    }
  }

  /* ---------- Today's meal check boxes ---------- */

  /** `m.person_id === personId && m.meal_type === mealType && m.date === date` */
  predicate InCell(m: MealEntry, personId: int, mealType: Meal, date: string)
  {
    m.personId == personId && m.mealType == mealType && m.date == date
  }

  /** `mealRecords.find(...)`: the first record of the cell, if any. */
  function FindMeal(records: seq<MealEntry>, personId: int, mealType: Meal, date: string): (r: Option<MealEntry>)
    ensures r.None? <==> forall m :: m in records ==> !InCell(m, personId, mealType, date)
    ensures r.Some? ==> r.value in records && InCell(r.value, personId, mealType, date)
    ensures r.Some? ==> exists i :: 0 <= i < |records| && records[i] == r.value &&
                                    forall j :: 0 <= j < i ==> !InCell(records[j], personId, mealType, date)
  {
    if records == [] then None
    else if InCell(records[0], personId, mealType, date) then
      assert records[0] == records[0];
      Some(records[0])
    else
      var r := FindMeal(records[1..], personId, mealType, date);
      assert forall m :: m in records ==> m == records[0] || m in records[1..];
      if r.Some? then
        var i :| 0 <= i < |records[1..]| && records[1..][i] == r.value &&
                 forall j :: 0 <= j < i ==> !InCell(records[1..][j], personId, mealType, date);
        assert records[i + 1] == r.value;
        assert forall j :: 0 <= j < i + 1 ==> !InCell(records[j], personId, mealType, date);
        r
      else r
  }

  /** `isMealChecked`: `mealRecords.some(...)` for the cell. */
  function IsMealChecked(records: seq<MealEntry>, personId: int, mealType: Meal, date: string): (b: bool)
    ensures b <==> exists m :: m in records && InCell(m, personId, mealType, date)
  {
    if records == [] then false
    else
      assert forall m :: m in records ==> m == records[0] || m in records[1..];
      InCell(records[0], personId, mealType, date) || IsMealChecked(records[1..], personId, mealType, date)
  }

  /** At most one distinct record per (person, meal, date). */
  predicate OneRecordPerCell(records: seq<MealEntry>)
  {
    forall a, b :: a in records && b in records && InCell(a, b.personId, b.mealType, b.date) ==> a == b
  }

  /** A record is determined by its id. */
  predicate IdsIdentify(records: seq<MealEntry>)
  {
    forall a, b :: a in records && b in records && a.id == b.id ==> a == b
  }

  /**
   * The meal records after `toggleMealForToday` settles: a record of the cell
   * is removed (every record sharing its id), or a new record, with the id
   * the store gave it, is put first; a failed write leaves the list as it was.
   */
  function ToggledRecords(records: seq<MealEntry>, personId: int, mealType: Meal, today: string,
                          outcome: StoreOutcome, newId: int): (r: seq<MealEntry>)
    ensures outcome.Failed? ==> r == records
  {
    match FindMeal(records, personId, mealType, today)
    case Some(existing) =>
      if outcome.Ok? then Filter(records, (m: MealEntry) => m.id != existing.id) else records
    case None =>
      if outcome.Ok? then [MealEntry(newId, personId, mealType, today)] + records else records
  }

  /** A successful toggle flips the check box of its cell. */
  lemma ToggleFlipsChecked(records: seq<MealEntry>, personId: int, mealType: Meal, today: string, newId: int)
    requires OneRecordPerCell(records)
    ensures IsMealChecked(ToggledRecords(records, personId, mealType, today, Ok, newId), personId, mealType, today)
            == !IsMealChecked(records, personId, mealType, today)
  {
    var r := ToggledRecords(records, personId, mealType, today, Ok, newId);
    match FindMeal(records, personId, mealType, today)
    case Some(existing) =>
      forall m | m in r ensures !InCell(m, personId, mealType, today) {
        assert m in records && m.id != existing.id;
      }
    case None =>
      assert r[0] in r;
  }

  /** Removing a record removes exactly the records with its id, and keeps the others in order. */
  lemma ToggleRemovesOnlyThatRecord(records: seq<MealEntry>, personId: int, mealType: Meal, today: string, newId: int)
    requires FindMeal(records, personId, mealType, today).Some?
    ensures var r := ToggledRecords(records, personId, mealType, today, Ok, newId);
            var existing := FindMeal(records, personId, mealType, today).value;
            IsSubsequence(r, records) && existing !in r &&
            forall m :: m in r <==> m in records && m.id != existing.id
  {
  }

  /** A successful toggle leaves every other check box as it was. */
  lemma ToggleKeepsOtherCells(records: seq<MealEntry>, personId: int, mealType: Meal, today: string, newId: int,
                              otherPerson: int, otherMeal: Meal, otherDate: string)
    requires IdsIdentify(records)
    requires (otherPerson, otherMeal, otherDate) != (personId, mealType, today)
    ensures IsMealChecked(ToggledRecords(records, personId, mealType, today, Ok, newId), otherPerson, otherMeal, otherDate)
            == IsMealChecked(records, otherPerson, otherMeal, otherDate)
  {
    var r := ToggledRecords(records, personId, mealType, today, Ok, newId);
    match FindMeal(records, personId, mealType, today)
    case Some(existing) =>
      forall m | m in records && InCell(m, otherPerson, otherMeal, otherDate) ensures m in r {
        assert m.id != existing.id;
      }
    case None =>
      forall m | m in r && InCell(m, otherPerson, otherMeal, otherDate) ensures m in records {
        assert m != r[0];
      }
  }

  /** A toggle keeps one record per cell, and, given a fresh id for a new record, ids identifying records. */
  lemma ToggleKeepsInvariants(records: seq<MealEntry>, personId: int, mealType: Meal, today: string,
                              outcome: StoreOutcome, newId: int)
    ensures OneRecordPerCell(records) ==>
              OneRecordPerCell(ToggledRecords(records, personId, mealType, today, outcome, newId))
    ensures IdsIdentify(records) && (forall m :: m in records ==> m.id != newId) ==>
              IdsIdentify(ToggledRecords(records, personId, mealType, today, outcome, newId))
  {
    var r := ToggledRecords(records, personId, mealType, today, outcome, newId);
    if outcome.Ok? && FindMeal(records, personId, mealType, today).None? {
      assert forall m :: m in r ==> m == r[0] || m in records;
    }
  }

  /**
   * Two clicks on the same box whose handlers both start before either write
   * returns, as written: each looks the cell up in the same `mealRecords`,
   * and each successful write lands through a functional update
   * `prev => …`. Both inserts land, the second first; two deletes of the
   * same record remove it once.
   */
  function InterleavedToggles(records: seq<MealEntry>, personId: int, mealType: Meal, today: string,
                              firstId: int, secondId: int): seq<MealEntry>
  {
    match FindMeal(records, personId, mealType, today)
    case Some(existing) =>
      Filter(Filter(records, (m: MealEntry) => m.id != existing.id), (m: MealEntry) => m.id != existing.id)
    case None =>
      [MealEntry(secondId, personId, mealType, today)] + ([MealEntry(firstId, personId, mealType, today)] + records)
  }

  /**
   * Two quick clicks on an unchecked box leave two records in its cell, and
   * from then on a click removes only one of them, so the box stays checked.
   */
  lemma AsWrittenDoubleClickInsertsTwice(records: seq<MealEntry>, personId: int, mealType: Meal, today: string,
                                         firstId: int, secondId: int, thirdId: int)
    requires FindMeal(records, personId, mealType, today).None?
    requires firstId != secondId
    ensures !OneRecordPerCell(InterleavedToggles(records, personId, mealType, today, firstId, secondId))
    ensures IsMealChecked(ToggledRecords(InterleavedToggles(records, personId, mealType, today, firstId, secondId),
                                         personId, mealType, today, Ok, thirdId), personId, mealType, today)
  {
    var r := InterleavedToggles(records, personId, mealType, today, firstId, secondId);
    var a, b := MealEntry(firstId, personId, mealType, today), MealEntry(secondId, personId, mealType, today);
    assert r == [b, a] + records;
    assert a in r && b in r && InCell(a, b.personId, b.mealType, b.date) && a != b;
    assert FindMeal(r, personId, mealType, today) == Some(b);
    var after := ToggledRecords(r, personId, mealType, today, Ok, thirdId);
    assert after == Filter(r, (m: MealEntry) => m.id != b.id);
    assert a in after;
  }

  /* ---------- The page ---------- */

  datatype Range = Daily | Monthly

  datatype Mode = BuyerMode | ItemMode | MealsMode

  /** What the analytics table shows: meal counts per name, or amounts per buyer or item. */
  datatype AnalyticsRows = MealView(mealRows: seq<MealRow>) | KeyView(keyRows: seq<KeyTotal>)

  class DashboardPage {
    var dailyExpenses: seq<Expense>
    var peopleList: seq<Person>
    var mealRecords: seq<MealEntry>
    var analytics: AnalyticsRows
    var showAnalytics: bool
    var filter: Range
    var analyticsMode: Mode
    var searchQuery: string
    var dateFrom: Option<string>
    var dateTo: Option<string>

    constructor()
      ensures dailyExpenses == [] && peopleList == [] && mealRecords == []
      ensures analytics == MealView([]) && !showAnalytics
      ensures filter == Monthly && analyticsMode == MealsMode
      ensures searchQuery == "" && dateFrom == None && dateTo == None
    {
      dailyExpenses := [];
      peopleList := [];
      mealRecords := [];
      analytics := MealView([]);
      showAnalytics := false;
      filter := Monthly;
      analyticsMode := MealsMode;
      searchQuery := "";
      dateFrom := None;
      dateTo := None;
    }

    /** The expense table: the loaded expenses that pass the search box and the date window. */
    function VisibleExpenses(): (r: seq<Expense>)
      reads this
      ensures IsSubsequence(r, dailyExpenses)
      ensures forall e :: e in r <==> e in dailyExpenses && Shown(e, NormalizedQuery(searchQuery), dateFrom, dateTo)
      ensures forall e :: multiset(r)[e] ==
                if Shown(e, NormalizedQuery(searchQuery), dateFrom, dateTo) then multiset(dailyExpenses)[e] else 0
      ensures forall e :: e in r ==> AfterFrom(e, dateFrom) && BeforeTo(e, dateTo)
    {
      FilteredExpenses(dailyExpenses, searchQuery, dateFrom, dateTo)
    }

    /**
     * `handleDeleteExpense`: unless the user cancels, the row leaves the list
     * at once; when the store refuses the delete the list is put back exactly
     * as it was.
     */
    method DeleteExpense(id: int, confirmed: bool, outcome: StoreOutcome)
      modifies this`dailyExpenses
      ensures !confirmed || outcome.Failed? ==> dailyExpenses == old(dailyExpenses)
      ensures confirmed && outcome.Ok? ==> dailyExpenses == Filter(old(dailyExpenses), (e: Expense) => e.id != id)
      ensures confirmed && outcome.Ok? ==> forall e :: e in dailyExpenses ==> e.id != id
    {
      if !confirmed {
        return;
      }
      var previous := dailyExpenses;
      dailyExpenses := Filter(dailyExpenses, (e: Expense) => e.id != id);
      if outcome.Failed? {
        dailyExpenses := previous;
      }
    }

    /** `handleDeletePerson`: the same optimistic removal with rollback, on the people list. */
    method DeletePerson(id: int, confirmed: bool, outcome: StoreOutcome)
      modifies this`peopleList
      ensures !confirmed || outcome.Failed? ==> peopleList == old(peopleList)
      ensures confirmed && outcome.Ok? ==> peopleList == Filter(old(peopleList), (p: Person) => p.id != id)
      ensures confirmed && outcome.Ok? ==> forall p :: p in peopleList ==> p.id != id
    {
      if !confirmed {
        return;
      }
      var previous := peopleList;
      peopleList := Filter(peopleList, (p: Person) => p.id != id);
      if outcome.Failed? {
        peopleList := previous;
      }
    }

    /**
     * `toggleMealForToday`: removes today's record of the cell (put back if
     * the delete fails) or, when there is none, inserts one and puts the
     * store's row first.
     */
    method ToggleMealForToday(personId: int, mealType: Meal, today: string, outcome: StoreOutcome, newId: int)
      modifies this`mealRecords
      ensures mealRecords == ToggledRecords(old(mealRecords), personId, mealType, today, outcome, newId)
    {
      var existing := FindMeal(mealRecords, personId, mealType, today);
      if existing.Some? {
        var previous := mealRecords;
        mealRecords := Filter(mealRecords, (m: MealEntry) => m.id != existing.value.id);
        if outcome.Failed? {
          mealRecords := previous;
        }
      } else if outcome.Ok? {
        mealRecords := [MealEntry(newId, personId, mealType, today)] + mealRecords;
      }
    }

    /**
     * `loadAnalytics`: records the range and mode, then builds the table from
     * the rows the store returned (`None` when the query failed, which leaves
     * the table as it was). `people` are the rows of the names query, empty
     * when it failed.
     */
    method LoadAnalytics(filterType: Range, mode: Mode, meals: Option<seq<MealEntry>>, people: seq<Person>,
                         expenses: Option<seq<Expense>>)
      modifies this`filter, this`analyticsMode, this`analytics, this`showAnalytics
      ensures filter == filterType && analyticsMode == mode
      ensures mode == MealsMode && meals.None? ==> analytics == old(analytics) && showAnalytics == old(showAnalytics)
      ensures mode != MealsMode && expenses.None? ==> analytics == old(analytics) && showAnalytics == old(showAnalytics)
      ensures mode == MealsMode && meals.Some? ==>
                showAnalytics && analytics.MealView? &&
                MealRowNames(analytics.mealRows) == KeysInOrder(AllMealEntries(meals.value, PeopleMapOf(people))) &&
                SumInts(MealRowTotals(analytics.mealRows)) == |meals.value| &&
                forall i :: 0 <= i < |analytics.mealRows| ==>
                  analytics.mealRows[i].counts == CountsFor(meals.value, PeopleMapOf(people), analytics.mealRows[i].name)
      ensures mode != MealsMode && expenses.Some? ==>
                showAnalytics && analytics.KeyView? &&
                KeyTotalNames(analytics.keyRows) ==
                  KeysInOrder(ExpenseEntries(expenses.value, if mode == ItemMode then ByItem else ByBuyer)) &&
                SumInts(KeyTotalAmounts(analytics.keyRows)) == SumPrices(expenses.value) &&
                forall i :: 0 <= i < |analytics.keyRows| ==>
                  analytics.keyRows[i].total ==
                  Weight(ExpenseEntries(expenses.value, if mode == ItemMode then ByItem else ByBuyer), analytics.keyRows[i].name)
    {
      filter := filterType;
      analyticsMode := mode;
      if mode == MealsMode {
        if meals.None? {
          return;
        }
        var peopleMap := BuildPeopleMap(people);
        var rows := MealTotals(meals.value, peopleMap);
        analytics := MealView(rows);
        showAnalytics := true;
      } else {
        if expenses.None? {
          return;
        }
        var rows := ExpenseTotals(expenses.value, if mode == ItemMode then ByItem else ByBuyer);
        analytics := KeyView(rows);
        showAnalytics := true;
      }
    }
  }

  /* ---------- The expense form ---------- */

  /** `Number(x || 0)` for the unit price field: the empty field reads as 0. */
  function OrZero(price: Option<int>): int
  {
    if price.Some? then price.value else 0
  }

  /**
   * `Number(quantity || 0) * Number(price_per_unit || 0)`: zero when either
   * field is empty or zero. The form keeps its total equal to this
   * (`ExpenseForm.Consistent`) across every edit.
   */
  function AutoTotal(quantity: int, price: Option<int>): (total: int)
    ensures quantity == 0 || OrZero(price) == 0 ==> total == 0
    ensures price.Some? ==> total == quantity * price.value
  {
    quantity * OrZero(price)
  }

  /**
   * The add/edit expense form. `pricePerUnit` is `None` while its field is
   * empty. The total is recomputed by an effect that runs only when the
   * quantity or the unit price has changed.
   */
  class ExpenseForm {
    var itemName: string
    var quantity: int
    var pricePerUnit: Option<int>
    var totalPrice: int
    var buyerName: string
    var date: string

    /** The total shows quantity times unit price. */
    predicate Consistent()
      reads this
    {
      totalPrice == AutoTotal(quantity, pricePerUnit)
    }

    constructor()
      ensures itemName == "" && quantity == 1 && pricePerUnit == None && totalPrice == 0
      ensures buyerName == "" && date == ""
      ensures Consistent()
    {
      itemName := "";
      quantity := 1;
      pricePerUnit := None;
      totalPrice := 0;
      buyerName := "";
      date := "";
    }

    /** The auto-total effect: recomputes the total when a dependency changed since the last render. */
    method AutoTotalEffect(prevQuantity: int, prevPrice: Option<int>)
      modifies this`totalPrice
      ensures quantity != prevQuantity || pricePerUnit != prevPrice ==> totalPrice == AutoTotal(quantity, pricePerUnit)
      ensures quantity == prevQuantity && pricePerUnit == prevPrice ==> totalPrice == old(totalPrice)
    {
      if quantity != prevQuantity || pricePerUnit != prevPrice {
        totalPrice := AutoTotal(quantity, pricePerUnit);
      }
    }

    /** Typing a quantity. */
    method SetQuantity(q: int)
      modifies this`quantity, this`totalPrice
      ensures quantity == q && pricePerUnit == old(pricePerUnit)
      ensures old(Consistent()) || q != old(quantity) ==> Consistent()
      ensures q == old(quantity) ==> totalPrice == old(totalPrice)
    {
      var prevQuantity, prevPrice := quantity, pricePerUnit;
      quantity := q;
      AutoTotalEffect(prevQuantity, prevPrice);
    }

    /** Typing a unit price (`None` when the field is cleared). */
    method SetPricePerUnit(p: Option<int>)
      modifies this`pricePerUnit, this`totalPrice
      ensures pricePerUnit == p && quantity == old(quantity)
      ensures old(Consistent()) || p != old(pricePerUnit) ==> Consistent()
      ensures p == old(pricePerUnit) ==> totalPrice == old(totalPrice)
    {
      var prevQuantity, prevPrice := quantity, pricePerUnit;
      pricePerUnit := p;
      AutoTotalEffect(prevQuantity, prevPrice);
    }

    /**
     * `handleEditExpense`: fills the form from a stored row (a zero quantity
     * reads as 1) and keeps the stored total unless the quantity or the unit
     * price differs from what the form held, in which case the effect
     * recomputes it.
     */
    method LoadForEdit(exp: Expense)
      modifies this
      ensures itemName == exp.itemName && buyerName == exp.buyerName && date == exp.date
      ensures quantity == (if exp.quantity == 0 then 1 else exp.quantity)
      ensures pricePerUnit == Some(exp.pricePerUnit)
      ensures quantity != old(quantity) || pricePerUnit != old(pricePerUnit) ==> Consistent()
      ensures quantity == old(quantity) && pricePerUnit == old(pricePerUnit) ==> totalPrice == exp.totalPrice
    {
      var prevQuantity, prevPrice := quantity, pricePerUnit;
      itemName := exp.itemName;
      quantity := if exp.quantity == 0 then 1 else exp.quantity;
      pricePerUnit := Some(exp.pricePerUnit);
      totalPrice := exp.totalPrice;
      buyerName := exp.buyerName;
      date := exp.date;
      AutoTotalEffect(prevQuantity, prevPrice);
    }

    /** The reset after a successful add, the Clear button (`date` empty) and the "+ Expense" button (`date` today). */
    method Reset(newDate: string)
      modifies this
      ensures itemName == "" && quantity == 1 && pricePerUnit == None && totalPrice == 0
      ensures buyerName == "" && date == newDate
      ensures Consistent()
    {
      var prevQuantity, prevPrice := quantity, pricePerUnit;
      itemName := "";
      quantity := 1;
      pricePerUnit := None;
      totalPrice := 0;
      buyerName := "";
      date := newDate;
      AutoTotalEffect(prevQuantity, prevPrice);
    }
  }
}
