/**
 * The dashboard's analytics views: meals per person split by meal type, and
 * expense totals per buyer or per item. Each is a loop that fills a
 * dictionary of totals keyed by name, then lists its entries in the order the
 * keys were first added.
 */
module Analytics {
  import opened Lists
  import opened Meals
  import opened DashboardData
  import opened Tally

  /** `p.name || 'Unknown'` */
  function Label(name: string): (r: string)
    ensures r != ""
    ensures name != "" ==> r == name
    ensures name == "" ==> r == "Unknown"
  {
    if name == "" then "Unknown" else name
  }

  /** The id-to-name dictionary as the `forEach` over the people rows leaves it. */
  function PeopleMapOf(people: seq<Person>): map<int, string>
  {
    if people == [] then map[]
    else
      var n := |people| - 1;
      PeopleMapOf(people[..n])[people[n].id := Label(people[n].name)]
  }

  /**
   * An id is in the dictionary exactly when some person has it, and its name
   * comes from the last person with that id (a blank name reading 'Unknown').
   */
  lemma {:induction false} PeopleMapLookup(people: seq<Person>, id: int)
    ensures id in PeopleMapOf(people) <==> exists k :: 0 <= k < |people| && people[k].id == id
    ensures id in PeopleMapOf(people) ==>
              exists k :: 0 <= k < |people| && people[k].id == id &&
                          PeopleMapOf(people)[id] == Label(people[k].name) &&
                          forall j :: k < j < |people| ==> people[j].id != id
  {
    if people != [] {
      var n := |people| - 1;
      PeopleMapLookup(people[..n], id);
      assert forall k :: 0 <= k < n ==> people[..n][k] == people[k];
      if people[n].id != id && id in PeopleMapOf(people) {
        var k :| 0 <= k < n && people[..n][k].id == id &&
                 PeopleMapOf(people[..n])[id] == Label(people[..n][k].name) &&
                 forall j :: k < j < n ==> people[..n][j].id != id;
        assert forall j :: k < j < |people| ==> people[j].id != id;
      }
    }
  }

  /** Builds the id-to-name dictionary, one person at a time. */
  method BuildPeopleMap(people: seq<Person>) returns (peopleMap: map<int, string>)
    ensures peopleMap == PeopleMapOf(people)
  {
    peopleMap := map[];
    var i := 0;
    while i < |people|
      invariant 0 <= i <= |people|
      invariant peopleMap == PeopleMapOf(people[..i])
    {
      var p := people[i];
      peopleMap := peopleMap[p.id := Label(p.name)];
      assert people[..i + 1][..i] == people[..i];
      i := i + 1;
    }
    assert people[..i] == people;
  }

  /** `peopleMap[m.person_id] || 'Unknown'`: the name a meal is counted under. */
  function NameFor(peopleMap: map<int, string>, personId: int): (r: string)
    ensures r != ""
    ensures personId in peopleMap && peopleMap[personId] != "" ==> r == peopleMap[personId]
    ensures !(personId in peopleMap && peopleMap[personId] != "") ==> r == "Unknown"
  {
    if personId in peopleMap && peopleMap[personId] != "" then peopleMap[personId] else "Unknown"
  }

  /** Each meal as an entry under its person's name, weighing 1 when it is a `meal`. */
  function MealEntriesOf(meals: seq<MealEntry>, peopleMap: map<int, string>, meal: Meal): (es: seq<Entry>)
    ensures |es| == |meals|
  {
    seq(|meals|, i requires 0 <= i < |meals| =>
      Entry(NameFor(peopleMap, meals[i].personId), if meals[i].mealType == meal then 1 else 0))
  }

  /** Each meal as an entry under its person's name, weighing 1. */
  function AllMealEntries(meals: seq<MealEntry>, peopleMap: map<int, string>): (es: seq<Entry>)
    ensures |es| == |meals|
  {
    seq(|meals|, i requires 0 <= i < |meals| => Entry(NameFor(peopleMap, meals[i].personId), 1))
  }

  datatype MealCounts = MealCounts(breakfast: int, lunch: int, dinner: int, total: int)

  /** One row of the meals view: `{name, breakfast, lunch, dinner, total}`. */
  datatype MealRow = MealRow(name: string, counts: MealCounts)

  /** What the meal rows fetched so far add up to under `name`. */
  function CountsFor(meals: seq<MealEntry>, peopleMap: map<int, string>, name: string): MealCounts
  {
    MealCounts(
      Weight(MealEntriesOf(meals, peopleMap, Breakfast), name),
      Weight(MealEntriesOf(meals, peopleMap, Lunch), name),
      Weight(MealEntriesOf(meals, peopleMap, Dinner), name),
      Weight(AllMealEntries(meals, peopleMap), name))
  }

  /** `totals[name][meal] += 1; totals[name].total += 1` */
  function Bump(c: MealCounts, meal: Meal): MealCounts
  {
    match meal
    case Breakfast => c.(breakfast := c.breakfast + 1, total := c.total + 1)
    case Lunch => c.(lunch := c.lunch + 1, total := c.total + 1)
    case Dinner => c.(dinner := c.dinner + 1, total := c.total + 1)
  }

  lemma CountsForSnoc(meals: seq<MealEntry>, peopleMap: map<int, string>, m: MealEntry, name: string)
    ensures CountsFor(meals + [m], peopleMap, name) ==
      if NameFor(peopleMap, m.personId) == name then Bump(CountsFor(meals, peopleMap, name), m.mealType)
      else CountsFor(meals, peopleMap, name)
  {
    var key := NameFor(peopleMap, m.personId);
    KindWeightSnoc(meals, peopleMap, m, Breakfast, name);
    KindWeightSnoc(meals, peopleMap, m, Lunch, name);
    KindWeightSnoc(meals, peopleMap, m, Dinner, name);
    assert AllMealEntries(meals + [m], peopleMap) == AllMealEntries(meals, peopleMap) + [Entry(key, 1)];
    WeightSnoc(AllMealEntries(meals, peopleMap), Entry(key, 1), name);
  }

  /** One more meal row adds one to its name's count of its own kind and nothing elsewhere. */
  lemma KindWeightSnoc(meals: seq<MealEntry>, peopleMap: map<int, string>, m: MealEntry, meal: Meal, name: string)
    ensures Weight(MealEntriesOf(meals + [m], peopleMap, meal), name) ==
      Weight(MealEntriesOf(meals, peopleMap, meal), name) + (if NameFor(peopleMap, m.personId) == name && m.mealType == meal then 1 else 0)
  {
    var e := Entry(NameFor(peopleMap, m.personId), if m.mealType == meal then 1 else 0);
    assert MealEntriesOf(meals + [m], peopleMap, meal) == MealEntriesOf(meals, peopleMap, meal) + [e];
    WeightSnoc(MealEntriesOf(meals, peopleMap, meal), e, name);
  }

  /** Every meal is a breakfast, a lunch or a dinner, so a person's total is the sum of the three. */
  lemma {:induction false} MealKindsAddUp(meals: seq<MealEntry>, peopleMap: map<int, string>, name: string)
    ensures var c := CountsFor(meals, peopleMap, name);
            c.total == c.breakfast + c.lunch + c.dinner
  {
    if meals != [] {
      var n := |meals| - 1;
      MealKindsAddUp(meals[..n], peopleMap, name);
      CountsForSnoc(meals[..n], peopleMap, meals[n], name);
      assert meals[..n] + [meals[n]] == meals;
    } else {
      assert MealEntriesOf(meals, peopleMap, Breakfast) == [];
      assert MealEntriesOf(meals, peopleMap, Lunch) == [];
      assert MealEntriesOf(meals, peopleMap, Dinner) == [];
      assert AllMealEntries(meals, peopleMap) == [];
    }
  }

  /** Weighing every meal 1, the meals add up to how many there are. */
  lemma {:induction false} AllMealsTotal(meals: seq<MealEntry>, peopleMap: map<int, string>)
    ensures Total(AllMealEntries(meals, peopleMap)) == |meals|
  {
    if meals != [] {
      var n := |meals| - 1;
      AllMealsTotal(meals[..n], peopleMap);
      assert AllMealEntries(meals, peopleMap)[..n] == AllMealEntries(meals[..n], peopleMap);
    } else {
      assert AllMealEntries(meals, peopleMap) == [];
    }
  }

  function MealRowNames(rows: seq<MealRow>): seq<string>
  {
    seq(|rows|, i requires 0 <= i < |rows| => rows[i].name)
  }

  function MealRowTotals(rows: seq<MealRow>): seq<int>
  {
    seq(|rows|, i requires 0 <= i < |rows| => rows[i].counts.total)
  }

  /**
   * The meals view: one row per name (people's names, 'Unknown' for an
   * unresolved id), each counting that name's breakfasts, lunches, dinners
   * and all meals; the totals over all rows add up to the number of meals.
   */
  method MealTotals(meals: seq<MealEntry>, peopleMap: map<int, string>) returns (rows: seq<MealRow>)
    ensures MealRowNames(rows) == KeysInOrder(AllMealEntries(meals, peopleMap))
    ensures NoDuplicates(MealRowNames(rows))
    ensures forall i :: 0 <= i < |rows| ==> rows[i].counts == CountsFor(meals, peopleMap, rows[i].name)
    ensures forall i :: 0 <= i < |rows| ==>
              rows[i].counts.total == rows[i].counts.breakfast + rows[i].counts.lunch + rows[i].counts.dinner
    ensures forall j :: 0 <= j < |meals| ==> NameFor(peopleMap, meals[j].personId) in MealRowNames(rows)
    ensures forall n :: n in MealRowNames(rows) ==> exists j :: 0 <= j < |meals| && NameFor(peopleMap, meals[j].personId) == n
    ensures SumInts(MealRowTotals(rows)) == |meals|
  {
    var names, totals := TallyMeals(meals, peopleMap);
    TallyOfInOrder(meals, peopleMap);
    rows := MealRowsOf(names, totals);
    MealRowsCounted(meals, peopleMap, names, totals);
    MealRowsAddUp(meals, peopleMap, names, totals);
    NamesCovered(meals, peopleMap, names);
  }

  /* ---------- The meals view on a plain `{}` dictionary ---------- */

  /**
   * The names a plain `{}` object inherits from `Object.prototype`. On an
   * empty dictionary `totals[name]` gives a function, or the prototype
   * itself for `__proto__`: a truthy value that is not an own entry.
   */
  const InheritedNames: set<string> := {
    "__proto__", "constructor", "hasOwnProperty", "isPrototypeOf", "propertyIsEnumerable",
    "toLocaleString", "toString", "valueOf",
    "__defineGetter__", "__defineSetter__", "__lookupGetter__", "__lookupSetter__"
  }

  /** Whether a meal is counted under a name that is not inherited. */
  predicate OwnName(peopleMap: map<int, string>, m: MealEntry)
  {
    NameFor(peopleMap, m.personId) !in InheritedNames
  }

  /**
   * The meals view as written, with `totals` a plain `{}`: for an inherited
   * name `!totals[name]` is false, so no own entry is made and both `+= 1`
   * land on the inherited value, which `Object.entries` does not list. What
   * is left are the rows of the meals counted under other names.
   */
  function AsWrittenMealRows(meals: seq<MealEntry>, peopleMap: map<int, string>): (rows: seq<MealRow>)
    ensures forall n :: n in MealRowNames(rows) ==> n !in InheritedNames
    ensures SumInts(MealRowTotals(rows)) == |Filter(meals, m => OwnName(peopleMap, m))|
  {
    var own := Filter(meals, m => OwnName(peopleMap, m));
    var (names, totals) := TallyOf(own, peopleMap);
    TallyOfTallied(own, peopleMap);
    MealRowsAddUp(own, peopleMap, names, totals);
    OwnNamesListed(own, peopleMap, names);
    MealRowsOf(names, totals)
  }

  lemma OwnNamesListed(own: seq<MealEntry>, peopleMap: map<int, string>, names: seq<string>)
    requires forall m :: m in own ==> OwnName(peopleMap, m)
    requires KeysListed(AllMealEntries(own, peopleMap), names)
    ensures forall n :: n in names ==> n !in InheritedNames
  {
    NamesCovered(own, peopleMap, names);
    forall n | n in names ensures n !in InheritedNames {
      var j :| 0 <= j < |own| && NameFor(peopleMap, own[j].personId) == n;
      assert own[j] in own;
    }
  }

  /** As written, one meal under an inherited name is enough for the chart to count fewer meals than there are. */
  lemma AsWrittenUndercounts(meals: seq<MealEntry>, peopleMap: map<int, string>, j: nat)
    requires j < |meals| && NameFor(peopleMap, meals[j].personId) in InheritedNames
    ensures SumInts(MealRowTotals(AsWrittenMealRows(meals, peopleMap))) < |meals|
  {
    FilterDropsOne(meals, m => OwnName(peopleMap, m), meals[j]);
  }

  /** A single breakfast of a person named "constructor": the chart shows no row and counts no meal. */
  lemma AsWrittenLosesConstructor()
    ensures var meals := [MealEntry(1, 7, Breakfast, "2025-10-01")];
            var peopleMap := map[7 := "constructor"];
            AsWrittenMealRows(meals, peopleMap) == [] &&
            SumInts(MealRowTotals(AsWrittenMealRows(meals, peopleMap))) == 0 < |meals|
  {
    var meals := [MealEntry(1, 7, Breakfast, "2025-10-01")];
    var peopleMap := map[7 := "constructor"];
    assert !OwnName(peopleMap, meals[0]);
    assert Filter(meals, m => OwnName(peopleMap, m)) == [] by {
      assert meals[1..] == [];
    }
  }

  /** `Object.entries(totals)` turned into rows, in insertion order. */
  function MealRowsOf(names: seq<string>, totals: map<string, MealCounts>): (rows: seq<MealRow>)
    requires forall n :: n in names ==> n in totals
    ensures MealRowNames(rows) == names
  {
    var rows := seq(|names|, k requires 0 <= k < |names| => MealRow(names[k], totals[names[k]]));
    assert MealRowNames(rows) == names;
    rows
  }

  /** Each row holds its name's counts, and each row's total is its three kinds added up. */
  lemma MealRowsCounted(meals: seq<MealEntry>, peopleMap: map<int, string>, names: seq<string>, totals: map<string, MealCounts>)
    requires MealsTallied(meals, peopleMap, names, totals)
    ensures var rows := MealRowsOf(names, totals);
            forall i :: 0 <= i < |rows| ==>
              && rows[i].counts == CountsFor(meals, peopleMap, rows[i].name)
              && rows[i].counts.total == rows[i].counts.breakfast + rows[i].counts.lunch + rows[i].counts.dinner
  {
    var rows := MealRowsOf(names, totals);
    forall i | 0 <= i < |rows|
      ensures rows[i].counts == CountsFor(meals, peopleMap, rows[i].name)
      ensures rows[i].counts.total == rows[i].counts.breakfast + rows[i].counts.lunch + rows[i].counts.dinner
    {
      assert rows[i].name == names[i];
      MealKindsAddUp(meals, peopleMap, names[i]);
    }
  }

  /** The rows' totals add up to the number of meal rows. */
  lemma MealRowsAddUp(meals: seq<MealEntry>, peopleMap: map<int, string>, names: seq<string>, totals: map<string, MealCounts>)
    requires MealsTallied(meals, peopleMap, names, totals)
    ensures SumInts(MealRowTotals(MealRowsOf(names, totals))) == |meals|
  {
    var rows := MealRowsOf(names, totals);
    var xs := MealRowTotals(rows);
    forall k | 0 <= k < |xs| ensures xs[k] == Weight(AllMealEntries(meals, peopleMap), names[k]) {
      assert rows[k].name == names[k];
    }
    ListedTotalsAddUp(AllMealEntries(meals, peopleMap), names, xs);
    AllMealsTotal(meals, peopleMap);
  }

  /** The names of a finished dictionary are exactly the names the meals are counted under. */
  lemma NamesCovered(meals: seq<MealEntry>, peopleMap: map<int, string>, names: seq<string>)
    requires KeysListed(AllMealEntries(meals, peopleMap), names)
    ensures forall j :: 0 <= j < |meals| ==> NameFor(peopleMap, meals[j].personId) in names
    ensures forall n :: n in names ==> exists j :: 0 <= j < |meals| && NameFor(peopleMap, meals[j].personId) == n
  {
    var entries := AllMealEntries(meals, peopleMap);
    forall j | 0 <= j < |meals| ensures NameFor(peopleMap, meals[j].personId) in names {
      assert entries[j].key == NameFor(peopleMap, meals[j].personId);
    }
    forall n | n in names ensures exists j :: 0 <= j < |meals| && NameFor(peopleMap, meals[j].personId) == n {
      var j :| 0 <= j < |entries| && entries[j].key == n;
      assert NameFor(peopleMap, meals[j].personId) == n;
    }
  }

  /** The totals dictionary after `meals`: its names in insertion order, and each name's counts. */
  ghost predicate MealsTallied(meals: seq<MealEntry>, peopleMap: map<int, string>, names: seq<string>, totals: map<string, MealCounts>)
  {
    && KeysListed(AllMealEntries(meals, peopleMap), names)
    && (forall n :: n in totals <==> n in names)
    && (forall n :: n in totals ==> totals[n] == CountsFor(meals, peopleMap, n))
  }

  /** Registers `name` with zero counts when it is new, then counts one `meal` for it. */
  function CountMeal(totals: map<string, MealCounts>, name: string, meal: Meal): map<string, MealCounts>
  {
    var start := if name in totals then totals[name] else MealCounts(0, 0, 0, 0);
    totals[name := Bump(start, meal)]
  }

  /** The dictionary and its names, in insertion order, after the `forEach` has read `meals`. */
  function TallyOf(meals: seq<MealEntry>, peopleMap: map<int, string>): (seq<string>, map<string, MealCounts>)
  {
    if meals == [] then ([], map[])
    else
      var (names, totals) := TallyOf(meals[..|meals| - 1], peopleMap);
      var m := meals[|meals| - 1];
      var name := NameFor(peopleMap, m.personId);
      (if name in totals then names else names + [name], CountMeal(totals, name, m.mealType))
  }

  /** The dictionary the `forEach` builds holds every name's counts, its names listed once each. */
  lemma {:induction false} TallyOfTallied(meals: seq<MealEntry>, peopleMap: map<int, string>)
    ensures MealsTallied(meals, peopleMap, TallyOf(meals, peopleMap).0, TallyOf(meals, peopleMap).1)
  {
    if meals == [] {
      assert AllMealEntries(meals, peopleMap) == [];
    } else {
      var n := |meals| - 1;
      var (names, totals) := TallyOf(meals[..n], peopleMap);
      TallyOfTallied(meals[..n], peopleMap);
      MealTallyStep(meals[..n], peopleMap, meals[n], names, totals);
      assert meals[..n] + [meals[n]] == meals;
    }
  }

  /** The names of the dictionary the `forEach` builds are listed in the order they first occur. */
  lemma {:induction false} TallyOfInOrder(meals: seq<MealEntry>, peopleMap: map<int, string>)
    ensures TallyOf(meals, peopleMap).0 == KeysInOrder(AllMealEntries(meals, peopleMap))
  {
    if meals != [] {
      var n := |meals| - 1;
      var e := Entry(NameFor(peopleMap, meals[n].personId), 1);
      assert AllMealEntries(meals, peopleMap) == AllMealEntries(meals[..n], peopleMap) + [e];
      TallyOfInOrder(meals[..n], peopleMap);
      TallyOfKeys(meals[..n], peopleMap);
      KeysInOrderSnoc(AllMealEntries(meals[..n], peopleMap), e);
    }
  }

  lemma {:induction false} TallyOfKeys(meals: seq<MealEntry>, peopleMap: map<int, string>)
    ensures forall k :: k in TallyOf(meals, peopleMap).1 <==> k in TallyOf(meals, peopleMap).0
  {
    if meals != [] {
      TallyOfKeys(meals[..|meals| - 1], peopleMap);
    }
  }

  /** The `forEach` over the meal rows that fills the totals dictionary. */
  method TallyMeals(meals: seq<MealEntry>, peopleMap: map<int, string>) returns (names: seq<string>, totals: map<string, MealCounts>)
    ensures (names, totals) == TallyOf(meals, peopleMap)
    ensures MealsTallied(meals, peopleMap, names, totals)
  {
    totals := map[];
    names := [];
    var i := 0;
    while i < |meals|
      invariant 0 <= i <= |meals|
      invariant (names, totals) == TallyOf(meals[..i], peopleMap)
    {
      var m := meals[i];
      var name := NameFor(peopleMap, m.personId);
      assert meals[..i + 1][..i] == meals[..i];
      names, totals := if name in totals then names else names + [name], CountMeal(totals, name, m.mealType);
      i := i + 1;
    }
    assert meals[..i] == meals;
    TallyOfTallied(meals, peopleMap);
  }

  /** One more meal row keeps the dictionary in step with the rows read so far. */
  lemma MealTallyStep(meals: seq<MealEntry>, peopleMap: map<int, string>, m: MealEntry, names: seq<string>, totals: map<string, MealCounts>)
    requires MealsTallied(meals, peopleMap, names, totals)
    ensures var name := NameFor(peopleMap, m.personId);
            MealsTallied(meals + [m], peopleMap, if name in totals then names else names + [name],
                         CountMeal(totals, name, m.mealType))
  {
    var name := NameFor(peopleMap, m.personId);
    var names' := if name in totals then names else names + [name];
    var totals' := CountMeal(totals, name, m.mealType);
    assert name in totals <==> name in names;
    MealNamesStep(meals, peopleMap, names, m);
    assert KeysListed(AllMealEntries(meals + [m], peopleMap), names');
    assert forall n :: n in totals' <==> n in names';
    if name !in totals {
      NewNameCountsZero(meals, peopleMap, name);
    }
    MealCountsStep(meals, peopleMap, totals, m);
  }

  lemma MealNamesStep(meals: seq<MealEntry>, peopleMap: map<int, string>, names: seq<string>, m: MealEntry)
    requires KeysListed(AllMealEntries(meals, peopleMap), names)
    ensures var name := NameFor(peopleMap, m.personId);
            KeysListed(AllMealEntries(meals + [m], peopleMap), if name in names then names else names + [name])
  {
    var name := NameFor(peopleMap, m.personId);
    assert AllMealEntries(meals + [m], peopleMap) == AllMealEntries(meals, peopleMap) + [Entry(name, 1)];
    KeysListedSnoc(AllMealEntries(meals, peopleMap), names, Entry(name, 1));
  }

  lemma MealCountsStep(meals: seq<MealEntry>, peopleMap: map<int, string>, totals: map<string, MealCounts>, m: MealEntry)
    requires forall n :: n in totals ==> totals[n] == CountsFor(meals, peopleMap, n)
    requires var name := NameFor(peopleMap, m.personId);
             name !in totals ==> CountsFor(meals, peopleMap, name) == MealCounts(0, 0, 0, 0)
    ensures var counted := CountMeal(totals, NameFor(peopleMap, m.personId), m.mealType);
            forall n :: n in counted ==> counted[n] == CountsFor(meals + [m], peopleMap, n)
  {
    var counted := CountMeal(totals, NameFor(peopleMap, m.personId), m.mealType);
    forall n | n in counted ensures counted[n] == CountsFor(meals + [m], peopleMap, n) {
      CountsForSnoc(meals, peopleMap, m, n);
    }
  }

  /** A name no meal so far resolved to has all counts zero. */
  lemma NewNameCountsZero(meals: seq<MealEntry>, peopleMap: map<int, string>, name: string)
    requires !HasKey(AllMealEntries(meals, peopleMap), name)
    ensures CountsFor(meals, peopleMap, name) == MealCounts(0, 0, 0, 0)
  {
    forall j | 0 <= j < |meals| ensures NameFor(peopleMap, meals[j].personId) != name {
      assert AllMealEntries(meals, peopleMap)[j].key == NameFor(peopleMap, meals[j].personId);
    }
    NameAbsentWeighsNothing(meals, peopleMap, name);
  }

  /** A name no meal resolves to has all counts zero. */
  lemma {:induction false} NameAbsentWeighsNothing(meals: seq<MealEntry>, peopleMap: map<int, string>, name: string)
    requires forall j :: 0 <= j < |meals| ==> NameFor(peopleMap, meals[j].personId) != name
    ensures CountsFor(meals, peopleMap, name) == MealCounts(0, 0, 0, 0)
  {
    if meals != [] {
      var n := |meals| - 1;
      NameAbsentWeighsNothing(meals[..n], peopleMap, name);
      CountsForSnoc(meals[..n], peopleMap, meals[n], name);
      assert meals[..n] + [meals[n]] == meals;
    } else {
      assert MealEntriesOf(meals, peopleMap, Breakfast) == [];
      assert MealEntriesOf(meals, peopleMap, Lunch) == [];
      assert MealEntriesOf(meals, peopleMap, Dinner) == [];
      assert AllMealEntries(meals, peopleMap) == [];
    }
  }

  /* ---------- Expenses per buyer or per item ---------- */

  datatype GroupBy = ByBuyer | ByItem

  /**
   * `d.buyer_name || 'Unknown'` or `d.item_name || 'Unknown'`: the key an
   * expense is summed under; `ExpenseTotals` gives each key its row.
   */
  function KeyOf(e: Expense, grouping: GroupBy): (k: string)
    ensures k != ""
    ensures var field := if grouping == ByItem then e.itemName else e.buyerName;
            (field != "" ==> k == field) && (field == "" ==> k == "Unknown")
  {
    Label(if grouping == ByItem then e.itemName else e.buyerName)
  }

  /** Each expense as an entry under its key, weighing its `total_price`. */
  function ExpenseEntries(data: seq<Expense>, grouping: GroupBy): (es: seq<Entry>)
    ensures |es| == |data|
  {
    seq(|data|, i requires 0 <= i < |data| => Entry(KeyOf(data[i], grouping), data[i].totalPrice))
  }

  /** The sum of `total_price` over all rows. */
  function SumPrices(data: seq<Expense>): int
  {
    if data == [] then 0 else data[0].totalPrice + SumPrices(data[1..])
  }

  lemma {:induction false} ExpenseEntriesTotal(data: seq<Expense>, grouping: GroupBy)
    ensures Total(ExpenseEntries(data, grouping)) == SumPrices(data)
  {
    if data != [] {
      var n := |data| - 1;
      ExpenseEntriesTotal(data[..n], grouping);
      assert ExpenseEntries(data, grouping)[..n] == ExpenseEntries(data[..n], grouping);
      SumPricesSnoc(data[..n], data[n]);
      assert data[..n] + [data[n]] == data;
    } else {
      assert ExpenseEntries(data, grouping) == [];
    }
  }

  lemma {:induction false} SumPricesSnoc(data: seq<Expense>, e: Expense)
    ensures SumPrices(data + [e]) == SumPrices(data) + e.totalPrice
  {
    if data != [] {
      assert (data + [e])[1..] == data[1..] + [e];
      SumPricesSnoc(data[1..], e);
    } else {
      assert data + [e] == [e];
    }
  }

  datatype KeyTotal = KeyTotal(name: string, total: int)

  function KeyTotalNames(rows: seq<KeyTotal>): seq<string>
  {
    seq(|rows|, i requires 0 <= i < |rows| => rows[i].name)
  }

  function KeyTotalAmounts(rows: seq<KeyTotal>): seq<int>
  {
    seq(|rows|, i requires 0 <= i < |rows| => rows[i].total)
  }

  /**
   * The buyer or item view: one row per key, each the sum of `total_price`
   * over that key's rows; the rows' totals add up to the sum over all rows.
   */
  method ExpenseTotals(data: seq<Expense>, grouping: GroupBy) returns (rows: seq<KeyTotal>)
    ensures KeyTotalNames(rows) == KeysInOrder(ExpenseEntries(data, grouping))
    ensures NoDuplicates(KeyTotalNames(rows))
    ensures forall i :: 0 <= i < |rows| ==> rows[i].total == Weight(ExpenseEntries(data, grouping), rows[i].name)
    ensures forall j :: 0 <= j < |data| ==> KeyOf(data[j], grouping) in KeyTotalNames(rows)
    ensures forall k :: k in KeyTotalNames(rows) ==> exists j :: 0 <= j < |data| && KeyOf(data[j], grouping) == k
    ensures SumInts(KeyTotalAmounts(rows)) == SumPrices(data)
  {
    var names, totals := TallyExpenses(data, grouping);
    rows := KeyTotalsOf(names, totals);
    KeyTotalsWeighed(ExpenseEntries(data, grouping), names, totals);
    KeyTotalsAddUp(data, grouping, names, totals);
    KeysCovered(data, grouping, names);
  }

  /** `Object.entries(totals)` turned into rows, in insertion order. */
  function KeyTotalsOf(names: seq<string>, totals: map<string, int>): (rows: seq<KeyTotal>)
    requires forall n :: n in names ==> n in totals
    ensures KeyTotalNames(rows) == names
  {
    var rows := seq(|names|, k requires 0 <= k < |names| => KeyTotal(names[k], totals[names[k]]));
    assert KeyTotalNames(rows) == names;
    rows
  }

  /** Each row holds its key's total. */
  lemma KeyTotalsWeighed(entries: seq<Entry>, names: seq<string>, totals: map<string, int>)
    requires Tallied(entries, names, totals)
    ensures var rows := KeyTotalsOf(names, totals);
            forall i :: 0 <= i < |rows| ==> rows[i].total == Weight(entries, rows[i].name)
  {
    var rows := KeyTotalsOf(names, totals);
    forall i | 0 <= i < |rows| ensures rows[i].total == Weight(entries, rows[i].name) {
      assert rows[i].name == names[i];
    }
  }

  /** The rows' totals add up to the sum of `total_price` over all rows. */
  lemma KeyTotalsAddUp(data: seq<Expense>, grouping: GroupBy, names: seq<string>, totals: map<string, int>)
    requires Tallied(ExpenseEntries(data, grouping), names, totals)
    ensures SumInts(KeyTotalAmounts(KeyTotalsOf(names, totals))) == SumPrices(data)
  {
    var entries := ExpenseEntries(data, grouping);
    var rows := KeyTotalsOf(names, totals);
    var xs := KeyTotalAmounts(rows);
    forall k | 0 <= k < |xs| ensures xs[k] == Weight(entries, names[k]) {
      assert rows[k].name == names[k];
    }
    ListedTotalsAddUp(entries, names, xs);
    ExpenseEntriesTotal(data, grouping);
  }

  /** The `forEach` that fills the totals dictionary, its keys listed in insertion order. */
  method TallyExpenses(data: seq<Expense>, grouping: GroupBy) returns (names: seq<string>, totals: map<string, int>)
    ensures names == KeysInOrder(ExpenseEntries(data, grouping))
    ensures Tallied(ExpenseEntries(data, grouping), names, totals)
  {
    ghost var entries := ExpenseEntries(data, grouping);
    totals := map[];
    names := [];
    var i := 0;
    while i < |data|
      invariant 0 <= i <= |data|
      invariant (names, totals) == TallyEntries(entries[..i])
    {
      var d := data[i];
      var e := Entry(KeyOf(d, grouping), d.totalPrice);
      assert entries[..i + 1][..i] == entries[..i] && entries[i] == e;
      if e.key !in totals {
        names := names + [e.key];
      }
      totals := Add(totals, e);
      i := i + 1;
    }
    assert entries[..i] == entries;
    TallyEntriesTallied(entries);
  }

  /** The keys listed for a finished dictionary are exactly the rows' keys. */
  lemma KeysCovered(data: seq<Expense>, grouping: GroupBy, names: seq<string>)
    requires KeysListed(ExpenseEntries(data, grouping), names)
    ensures forall j :: 0 <= j < |data| ==> KeyOf(data[j], grouping) in names
    ensures forall k :: k in names ==> exists j :: 0 <= j < |data| && KeyOf(data[j], grouping) == k
  {
    var entries := ExpenseEntries(data, grouping);
    forall j | 0 <= j < |data| ensures KeyOf(data[j], grouping) in names {
      assert entries[j].key == KeyOf(data[j], grouping);
    }
    forall k | k in names ensures exists j :: 0 <= j < |data| && KeyOf(data[j], grouping) == k {
      var j :| 0 <= j < |entries| && entries[j].key == k;
      assert KeyOf(data[j], grouping) == k;
    }
  }
}
