/**
 * The stand-alone expenses page: four text fields and a list of entries kept
 * by the browser, grown by the Add button and shrunk by each row's delete
 * button.
 */
module LocalExpenses {
  import opened Lists
  import opened Optional

  /** One entry: `{item, price, date, buyer}`, the price as the text typed. */
  datatype LocalExpense = LocalExpense(item: string, price: string, date: string, buyer: string)

  class ExpenseSheet {
    var expenses: seq<LocalExpense>
    var item: string
    var price: string
    var date: string
    var buyer: string

    constructor()
      ensures expenses == [] && item == "" && price == "" && date == "" && buyer == ""
    {
      expenses := [];
      item := "";
      price := "";
      date := "";
      buyer := "";
    }

    /**
     * The page's first effect: entries found in browser storage under
     * `expenses` replace the empty list; nothing found leaves it alone.
     */
    method Load(saved: Option<seq<LocalExpense>>)
      modifies this`expenses
      ensures saved.Some? ==> expenses == saved.value
      ensures saved.None? ==> expenses == old(expenses)
    {
      if saved.Some? {
        expenses := saved.value;
      }
    }

    /**
     * `addExpense`: refuses while any field is empty, changing nothing;
     * otherwise appends one entry built from the four fields and empties them.
     */
    method AddExpense() returns (added: bool)
      modifies this
      ensures added <==> old(item) != "" && old(price) != "" && old(date) != "" && old(buyer) != ""
      ensures !added ==> expenses == old(expenses) && item == old(item) && price == old(price) &&
                         date == old(date) && buyer == old(buyer)
      ensures added ==> expenses == old(expenses) + [LocalExpense(old(item), old(price), old(date), old(buyer))]
      ensures added ==> item == "" && price == "" && date == "" && buyer == ""
    {
      if item == "" || price == "" || date == "" || buyer == "" {
        return false;
      }
      var entry := LocalExpense(item, price, date, buyer);
      expenses := expenses + [entry];
      item := "";
      price := "";
      date := "";
      buyer := "";
      added := true;
    }

    /** `deleteExpense(index)`: drops the entry at `index`, keeping the others in order. */
    method DeleteExpense(index: int)
      modifies this`expenses
      ensures expenses == WithoutIndex(old(expenses), index)
      ensures 0 <= index < |old(expenses)| ==> |expenses| == |old(expenses)| - 1
      ensures !(0 <= index < |old(expenses)|) ==> expenses == old(expenses)
      ensures IsSubsequence(expenses, old(expenses))
    {
      WithoutIndexIsSubsequence(expenses, index);
      expenses := WithoutIndex(expenses, index);
    }
  }
}
