/** Consequences of the monthly-summary contract: one entry per distinct
    stored category, nothing for an empty month, and two worked examples
    (the three October expenses of the listing test, and a month where a NULL
    and an empty category both end up labelled "Uncategorized"). */
module SummaryFacts {
  import opened Wrappers
  import opened Dates
  import opened Models
  import opened Totals
  import opened ExpenseRepo

  /** Distinct categories in a grouping: as many rows as keys. */
  lemma {:induction false} GroupKeysCount(groups: seq<GroupTotal>)
    requires forall i, j | 0 <= i < j < |groups| :: groups[i].category != groups[j].category
    ensures |GroupKeys(groups)| == |groups|
  {
    if groups != [] {
      var init := groups[..|groups| - 1];
      var last := groups[|groups| - 1];
      assert groups == init + [last];
      GroupKeysAppend(init, last);
      GroupKeysCount(init);
    } else {
      assert GroupKeys(groups) == {};
    }
  }

  /** A summary has exactly one entry per distinct stored category of the
      month (NULL and "" count as two), so an empty month has none. */
  lemma SummarySize(rows: seq<CategoryTotal>, es: set<Expense>)
    requires IsMonthlySummary(rows, es)
    ensures |rows| == |Categories(es)|
    ensures es == {} ==> rows == []
  {
    var groups: seq<GroupTotal> :| IsGrouping(groups, es) && rows == Labelled(groups);
    GroupKeysCount(groups);
    if es == {} {
      assert Categories(es) == {};
    }
  }

  /** In a well-formed store every amount is positive, so every entry of a
      monthly summary has a positive total. */
  lemma SummaryTotalsPositive(s: State, u: int, year: int, month: int, rows: seq<CategoryTotal>)
    requires ExpensesWellFormed(s)
    requires IsMonthlySummary(rows, MonthRows(s, u, year, month))
    ensures forall i | 0 <= i < |rows| :: rows[i].totalAmount > 0.0
  {
    var es := MonthRows(s, u, year, month);
    var groups: seq<GroupTotal> :| IsGrouping(groups, es) && rows == Labelled(groups);
    forall i | 0 <= i < |rows| ensures rows[i].totalAmount > 0.0 {
      LabelledAt(groups, i);
      var c := groups[i].category;
      assert c in GroupKeys(groups);
      var e :| e in es && e.category == c;
      assert e in InCategory(es, c);
      SumAmountsPositive(InCategory(es, c));
    }
  }

  const Alice := User(1, "Alice", "alice@example.com", "h1", 0, None, None)
  const Bob := User(2, "Bob", "bob@example.com", "h2", 0, None, None)

  const Coffee := Expense(1, 15.0, "Coffee", Date(2023, 10, 3), Some("Food"), 1)
  const Groceries := Expense(2, 30.0, "Groceries", Date(2023, 10, 4), Some("Food"), 1)
  const Rent := Expense(3, 100.0, "Monthly Rent", Date(2023, 10, 1), Some("Housing"), 1)
  const NovemberLunch := Expense(4, 12.5, "Lunch", Date(2023, 11, 2), Some("Food"), 1)
  const BobsTaxi := Expense(5, 20.0, "Taxi", Date(2023, 10, 2), Some("Transport"), 2)

  /** Alice's three October expenses, one of hers in November, one of Bob's in October. */
  const OctoberState := State(
    map[1 := Alice, 2 := Bob],
    map[1 := Coffee, 2 := Groceries, 3 := Rent, 4 := NovemberLunch, 5 := BobsTaxi],
    3, 6)

  lemma SumOfTwo(a: Expense, b: Expense)
    requires a != b
    ensures SumAmounts({a, b}) == a.amount + b.amount
  {
    SumAmountsRemove({a, b}, a);
    assert {a, b} - {a} == {b};
    SumAmountsRemove({b}, b);
    assert {b} - {b} == {};
  }

  lemma SumOfOne(a: Expense)
    ensures SumAmounts({a}) == a.amount
  {
    SumAmountsRemove({a}, a);
    assert {a} - {a} == {};
  }

  lemma OctoberRows()
    ensures MonthRows(OctoberState, 1, 2023, 10) == {Coffee, Groceries, Rent}
  {
    var es := MonthRows(OctoberState, 1, 2023, 10);
    var m := OctoberState.expenses;
    assert m[1] == Coffee && m[2] == Groceries && m[3] == Rent;
    forall e | e in es ensures e in {Coffee, Groceries, Rent} {
      var k :| k in m && m[k].userId == 1 && m[k].expenseDate.year == 2023
               && m[k].expenseDate.month == 10 && m[k] == e;
    }
  }

  /** A grouping over exactly two categories has two rows, one for each. */
  lemma TwoGroups(groups: seq<GroupTotal>, es: set<Expense>, a: Option<string>, b: Option<string>)
    requires IsGrouping(groups, es)
    requires Categories(es) == {a, b} && a != b
    ensures |groups| == 2
    ensures (groups[0].category == a && groups[1].category == b)
            || (groups[0].category == b && groups[1].category == a)
  {
    GroupKeysCount(groups);
    assert groups[0].category in GroupKeys(groups);
    assert groups[1].category in GroupKeys(groups);
  }

  /** Labelling a two-row grouping. */
  lemma LabelledTwo(groups: seq<GroupTotal>)
    requires |groups| == 2
    ensures Labelled(groups) == [CategoryTotal(Label(groups[0].category), groups[0].total),
                                 CategoryTotal(Label(groups[1].category), groups[1].total)]
  {
    LabelledAt(groups, 0);
    LabelledAt(groups, 1);
  }

  /** A month whose expenses fall into exactly two stored categories has a
      two-entry summary, one entry per category with that category's sum. */
  lemma TwoCategorySummary(rows: seq<CategoryTotal>, es: set<Expense>,
                           a: Option<string>, b: Option<string>, ta: real, tb: real)
    requires IsMonthlySummary(rows, es)
    requires Categories(es) == {a, b} && a != b
    requires SumAmounts(InCategory(es, a)) == ta && SumAmounts(InCategory(es, b)) == tb
    ensures multiset(rows) == multiset{CategoryTotal(Label(a), ta), CategoryTotal(Label(b), tb)}
  {
    var groups: seq<GroupTotal> :| IsGrouping(groups, es) && rows == Labelled(groups);
    TwoGroups(groups, es, a, b);
    LabelledTwo(groups);
    var x := CategoryTotal(Label(a), ta);
    var y := CategoryTotal(Label(b), tb);
    if groups[0].category == a {
      assert rows == [x, y];
    } else {
      assert rows == [y, x];
    }
  }

  lemma OctoberTotals()
    ensures Categories({Coffee, Groceries, Rent}) == {Some("Food"), Some("Housing")}
    ensures SumAmounts(InCategory({Coffee, Groceries, Rent}, Some("Food"))) == 45.0
    ensures SumAmounts(InCategory({Coffee, Groceries, Rent}, Some("Housing"))) == 100.0
  {
    var es := {Coffee, Groceries, Rent};
    assert InCategory(es, Some("Food")) == {Coffee, Groceries};
    assert InCategory(es, Some("Housing")) == {Rent};
    SumOfTwo(Coffee, Groceries);
    SumOfOne(Rent);
  }

  /** Alice's October summary is Food 45 and Housing 100, in some order:
      November and Bob's expenses are left out. */
  lemma OctoberSummary(rows: seq<CategoryTotal>)
    requires IsMonthlySummary(rows, MonthRows(OctoberState, 1, 2023, 10))
    ensures multiset(rows) == multiset{CategoryTotal("Food", 45.0), CategoryTotal("Housing", 100.0)}
  {
    OctoberRows();
    OctoberTotals();
    TwoCategorySummary(rows, {Coffee, Groceries, Rent}, Some("Food"), Some("Housing"), 45.0, 100.0);
  }

  const Stamps := Expense(1, 5.0, "Stamps", Date(2024, 2, 1), None, 1)
  const Tape := Expense(2, 7.0, "Tape", Date(2024, 2, 9), Some(""), 1)
  const FebruaryState := State(map[1 := Alice], map[1 := Stamps, 2 := Tape], 2, 3)

  lemma FebruaryRows()
    ensures MonthRows(FebruaryState, 1, 2024, 2) == {Stamps, Tape}
  {
    var es := MonthRows(FebruaryState, 1, 2024, 2);
    var m := FebruaryState.expenses;
    assert m[1] == Stamps && m[2] == Tape;
    forall e | e in es ensures e in {Stamps, Tape} {
      var k :| k in m && m[k].userId == 1 && m[k].expenseDate.year == 2024
               && m[k].expenseDate.month == 2 && m[k] == e;
    }
  }

  lemma FebruaryTotals()
    ensures Categories({Stamps, Tape}) == {None, Some("")}
    ensures SumAmounts(InCategory({Stamps, Tape}, None)) == 5.0
    ensures SumAmounts(InCategory({Stamps, Tape}, Some(""))) == 7.0
  {
    var es := {Stamps, Tape};
    assert InCategory(es, None) == {Stamps};
    assert InCategory(es, Some("")) == {Tape};
    SumOfOne(Stamps);
    SumOfOne(Tape);
  }

  /** A NULL category and an empty one are separate groups, and both are
      labelled "Uncategorized": the answer then holds two entries with the
      same label. */
  lemma TwoUncategorizedEntries(rows: seq<CategoryTotal>)
    requires IsMonthlySummary(rows, MonthRows(FebruaryState, 1, 2024, 2))
    ensures multiset(rows) == multiset{CategoryTotal(Uncategorized, 5.0), CategoryTotal(Uncategorized, 7.0)}
  {
    FebruaryRows();
    FebruaryTotals();
    TwoCategorySummary(rows, {Stamps, Tape}, None, Some(""), 5.0, 7.0);
  }
}
