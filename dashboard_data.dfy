/**
 * The rows the dashboard reads from its record store (tables `expenses`,
 * `people` and `meals`). A text column that is null, undefined or empty is
 * the empty string here: the page reads every one of them through
 * `value || ''` or `value || 'Unknown'`, which treat the three alike.
 * Money is in minor units.
 */
module DashboardData {
  import opened Meals

  datatype Expense = Expense(
    id: int,
    itemName: string,
    quantity: int,
    pricePerUnit: int,
    totalPrice: int,
    buyerName: string,
    date: string)

  datatype Person = Person(id: int, name: string, joiningDate: string, address: string, phone: string)

  /** One row of the `meals` table: `person` had `mealType` on `date`. */
  datatype MealEntry = MealEntry(id: int, personId: int, mealType: Meal, date: string)

  /** The store's answer to a write: success, or the error the page shows in an alert. */
  datatype StoreOutcome = Ok | Failed(message: string)
}
