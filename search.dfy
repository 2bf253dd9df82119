/**
 * The dashboard's expense search: a free-text query matched against item,
 * buyer and quantity, and an optional date window compared as strings.
 */
module ExpenseSearch {
  import opened Text
  import opened Lists
  import opened Optional
  import opened DashboardData

  /** `String(e.quantity || '')`: a zero quantity reads as the empty string. */
  function QuantityText(quantity: int): (r: string)
    ensures r == [] <==> quantity == 0
    ensures quantity > 0 ==> AllDigits(r) && DigitsValue(r) == quantity
    ensures quantity < 0 ==> r[0] == '-' && AllDigits(r[1..]) && DigitsValue(r[1..]) == -quantity
    ensures quantity != 0 ==> r[0] != '0'
  {
    if quantity == 0 then "" else IntToString(quantity)
  }

  /** `searchQuery.trim().toLowerCase()` */
  function NormalizedQuery(searchQuery: string): string
  {
    ToLower(Trim(searchQuery))
  }

  /** An empty query matches everything; otherwise it must occur in the item, the buyer or the quantity. */
  predicate MatchesQuery(e: Expense, q: string)
  {
    q == [] ||
    Includes(ToLower(e.itemName), q) ||
    Includes(ToLower(e.buyerName), q) ||
    Includes(QuantityText(e.quantity), q)
  }

  /**
   * The search ignores the letter case of the item and buyer names: a record
   * matches a query exactly when its lower-cased copy does.
   */
  lemma MatchesQueryIgnoresCase(e: Expense, q: string)
    ensures MatchesQuery(e, q) == MatchesQuery(e.(itemName := ToLower(e.itemName), buyerName := ToLower(e.buyerName)), q)
  {
    ToLowerIdempotent(e.itemName);
    ToLowerIdempotent(e.buyerName);
  }

  /** A date bound is in force when it is neither null nor empty. */
  predicate IsSet(bound: Option<string>)
  {
    bound.Some? && bound.value != ""
  }

  predicate AfterFrom(e: Expense, dateFrom: Option<string>)
  {
    !IsSet(dateFrom) || (e.date != "" && StrLessEq(dateFrom.value, e.date))
  }

  predicate BeforeTo(e: Expense, dateTo: Option<string>)
  {
    !IsSet(dateTo) || (e.date != "" && StrLessEq(e.date, dateTo.value))
  }

  predicate Shown(e: Expense, q: string, dateFrom: Option<string>, dateTo: Option<string>)
  {
    MatchesQuery(e, q) && AfterFrom(e, dateFrom) && BeforeTo(e, dateTo)
  }

  /**
   * The expenses the table shows: exactly the input records that match the
   * query and fall in the date window, in input order.
   */
  function FilteredExpenses(expenses: seq<Expense>, searchQuery: string, dateFrom: Option<string>, dateTo: Option<string>): (r: seq<Expense>)
    ensures IsSubsequence(r, expenses)
    ensures forall e :: e in r <==> e in expenses && Shown(e, NormalizedQuery(searchQuery), dateFrom, dateTo)
    ensures forall e :: multiset(r)[e] == if Shown(e, NormalizedQuery(searchQuery), dateFrom, dateTo) then multiset(expenses)[e] else 0
    ensures forall e :: e in r && IsSet(dateFrom) ==> e.date != "" && StrLessEq(dateFrom.value, e.date)
    ensures forall e :: e in r && IsSet(dateTo) ==> e.date != "" && StrLessEq(e.date, dateTo.value)
  {
    var q := NormalizedQuery(searchQuery);
    Filter(expenses, (e: Expense) => Shown(e, q, dateFrom, dateTo))
  }

  /** With a blank query and no date bounds every expense is shown. */
  lemma UnfilteredShowsAll(expenses: seq<Expense>, searchQuery: string, dateFrom: Option<string>, dateTo: Option<string>)
    requires AllSpace(searchQuery) && !IsSet(dateFrom) && !IsSet(dateTo)
    ensures FilteredExpenses(expenses, searchQuery, dateFrom, dateTo) == expenses
  {
    var q := NormalizedQuery(searchQuery);
    assert q == [];
    FilterKeepsAll(expenses, (e: Expense) => Shown(e, q, dateFrom, dateTo));
  }

  /** Filtering the filtered list again changes nothing. */
  lemma FilterTwiceIsOnce(expenses: seq<Expense>, searchQuery: string, dateFrom: Option<string>, dateTo: Option<string>)
    ensures var once := FilteredExpenses(expenses, searchQuery, dateFrom, dateTo);
            FilteredExpenses(once, searchQuery, dateFrom, dateTo) == once
  {
    var q := NormalizedQuery(searchQuery);
    FilterIdempotent(expenses, (e: Expense) => Shown(e, q, dateFrom, dateTo));
  }
}
