/** The expense store: lookups, the owner's listing newest first, create,
    partial update, delete, and the monthly per-category totals. */
module ExpenseRepo {
  import opened Wrappers
  import opened Dates
  import opened Models
  import opened Schemas
  import opened Totals

  // ---------------- lookup ----------------

  /** The row whose `id` column equals `id`, if there is one. */
  function GetExpenseById(s: State, id: int): (r: Option<Expense>)
    requires ExpensesKeyed(s)
    ensures r.Some? ==> r.value in s.expenses.Values && r.value.id == id
    ensures r.None? ==> forall k | k in s.expenses :: s.expenses[k].id != id
  {
    if id in s.expenses then Some(s.expenses[id]) else None
  }

  // ---------------- listing ----------------

  /** Every stored expense of user `u`. Rows are collected as records; with
      `ExpensesKeyed` each record carries its own key, so distinct rows are
      distinct records and the set holds each row once. */
  function Owned(s: State, u: int): set<Expense> {
    set k | k in s.expenses && s.expenses[k].userId == u :: s.expenses[k]
  }

  /** Dates never increase along the sequence; equal dates may come in any order. */
  predicate NewestFirst(r: seq<Expense>) {
    forall i, j | 0 <= i < j < |r| :: OnOrBefore(r[j].expenseDate, r[i].expenseDate)
  }

  /** Puts `e` into a newest-first sequence, before the first element that is not newer. */
  function InsertNewestFirst(r: seq<Expense>, e: Expense): (r': seq<Expense>)
    requires NewestFirst(r)
    ensures NewestFirst(r')
    ensures multiset(r') == multiset(r) + multiset{e}
  {
    if r == [] then [e]
    else if OnOrBefore(r[0].expenseDate, e.expenseDate) then
      assert forall j | 0 <= j < |r| :: OnOrBefore(r[j].expenseDate, e.expenseDate) by {
        forall j | 0 <= j < |r| ensures OnOrBefore(r[j].expenseDate, e.expenseDate) {
          if j > 0 { OnOrBeforeTransitive(r[j].expenseDate, r[0].expenseDate, e.expenseDate); }
        }
      }
      [e] + r
    else
      var tail := InsertNewestFirst(r[1..], e);
      OnOrBeforeTotal(r[0].expenseDate, e.expenseDate);
      assert r == [r[0]] + r[1..];
      assert forall x | x in tail :: OnOrBefore(x.expenseDate, r[0].expenseDate) by {
        forall x | x in tail ensures OnOrBefore(x.expenseDate, r[0].expenseDate) {
          assert x in multiset(tail);
          assert x == e || x in r[1..];
        }
      }
      [r[0]] + tail
  }

  /** All of user `u`'s expenses, each exactly once, newest first. */
  method GetExpensesByUserId(s: State, u: int) returns (r: seq<Expense>)
    requires ExpensesKeyed(s)
    ensures multiset(r) == multiset(Owned(s, u))
    ensures NewestFirst(r)
  {
    r := [];
    var rest := Owned(s, u);
    while rest != {}
      invariant rest <= Owned(s, u)
      invariant multiset(r) + multiset(rest) == multiset(Owned(s, u))
      invariant NewestFirst(r)
      decreases |rest|
    {
      var e :| e in rest;
      r := InsertNewestFirst(r, e);
      assert multiset(rest) == multiset(rest - {e}) + multiset{e};
      rest := rest - {e};
    }
  }

  // ---------------- create / update / delete ----------------

  /** Inserts a new expense for `userId` under a fresh id; an omitted date
      becomes `today`. */
  function CreateExpense(s: State, c: ExpenseCreate, userId: int, today: Date): (r: (Expense, State))
    requires ExpensesKeyed(s)
    ensures var (e, s') := r;
            && e.id !in s.expenses
            && s'.expenses.Keys == s.expenses.Keys + {e.id}
            && s'.expenses[e.id] == e
            && (forall k | k in s.expenses :: s'.expenses[k] == s.expenses[k])
            && s'.users == s.users
    ensures var e := r.0;
            && e.userId == userId
            && e.amount == c.amount && e.description == c.description && e.category == c.category
            && e.expenseDate == c.expenseDate.GetOr(today)
    ensures ExpensesKeyed(r.1)
  {
    var e := Expense(s.nextExpenseId, c.amount, c.description, c.expenseDate.GetOr(today), c.category, userId);
    (e, s.(expenses := s.expenses[e.id := e], nextExpenseId := s.nextExpenseId + 1))
  }

  /** Applies the fields sent in `p`. Sending `null` for a NOT NULL column
      (amount, description, date) makes the commit fail. */
  function ApplyExpenseUpdate(e: Expense, p: ExpenseUpdate): (r: Result<Expense, DbError>)
    ensures r.Err? <==> p.amount == Put(None) || p.description == Put(None) || p.expenseDate == Put(None)
    ensures r.Ok? ==> r.value.id == e.id && r.value.userId == e.userId
    ensures r.Ok? ==> && (p.amount.Keep? ==> r.value.amount == e.amount)
                      && (p.amount.Put? ==> Some(r.value.amount) == p.amount.value)
                      && (p.description.Keep? ==> r.value.description == e.description)
                      && (p.description.Put? ==> Some(r.value.description) == p.description.value)
                      && (p.expenseDate.Keep? ==> r.value.expenseDate == e.expenseDate)
                      && (p.expenseDate.Put? ==> Some(r.value.expenseDate) == p.expenseDate.value)
                      && (p.category.Keep? ==> r.value.category == e.category)
                      && (p.category.Put? ==> r.value.category == p.category.value)
  {
    if p.amount == Put(None) || p.description == Put(None) || p.expenseDate == Put(None) then
      Err(IntegrityError)
    else
      Ok(e.(amount := Merge(Some(e.amount), p.amount).value,
            description := Merge(Some(e.description), p.description).value,
            expenseDate := Merge(Some(e.expenseDate), p.expenseDate).value,
            category := Merge(e.category, p.category)))
  }

  /** `Ok(None)` and no change for a missing id; otherwise the patched row,
      or a rolled-back integrity error. Only that row can change. */
  function UpdateExpense(s: State, id: int, p: ExpenseUpdate): (r: (Result<Option<Expense>, DbError>, State))
    ensures id !in s.expenses ==> r == (Ok(None), s)
    ensures r.0.Err? ==> r.1 == s
    ensures r.0.Ok? && r.0.value.Some? ==>
              id in s.expenses
              && ApplyExpenseUpdate(s.expenses[id], p) == Ok(r.0.value.value)
              && r.1 == s.(expenses := s.expenses[id := r.0.value.value])
    ensures id in s.expenses ==> (r.0.Err? <==> ApplyExpenseUpdate(s.expenses[id], p).Err?)
    ensures id in s.expenses ==> r.0 != Ok(None)
  {
    if id !in s.expenses then (Ok(None), s)
    else
      match ApplyExpenseUpdate(s.expenses[id], p)
      case Err(err) => (Err(err), s)
      case Ok(e) => (Ok(Some(e)), s.(expenses := s.expenses[id := e]))
  }

  /** `false` and no change for a missing id; otherwise exactly that row goes. */
  function DeleteExpense(s: State, id: int): (r: (bool, State))
    ensures r.0 <==> id in s.expenses
    ensures r.1.expenses.Keys == s.expenses.Keys - {id}
    ensures forall k | k in r.1.expenses :: r.1.expenses[k] == s.expenses[k]
    ensures r.1.users == s.users
  {
    if id !in s.expenses then (false, s)
    else (true, s.(expenses := s.expenses - {id}))
  }

  // ---------------- monthly summary ----------------

  /** User `u`'s expenses dated in month `month` of year `year` (one record
      per row under `ExpensesKeyed`, as for `Owned`). */
  function MonthRows(s: State, u: int, year: int, month: int): set<Expense> {
    set k | k in s.expenses && s.expenses[k].userId == u
                            && s.expenses[k].expenseDate.year == year
                            && s.expenses[k].expenseDate.month == month :: s.expenses[k]
  }

  /** One row of the grouped query: a stored category (possibly NULL) and its sum. */
  datatype GroupTotal = GroupTotal(category: Option<string>, total: real)

  /** One entry of the answer: `{"category": ..., "total_amount": ...}`. */
  datatype CategoryTotal = CategoryTotal(category: string, totalAmount: real)

  const Uncategorized := "Uncategorized"

  /** `category or "Uncategorized"`: NULL and the empty string are both falsy. */
  function Label(c: Option<string>): string {
    if c.None? || c.value == "" then Uncategorized else c.value
  }

  function GroupKeys(groups: seq<GroupTotal>): set<Option<string>> {
    set i | 0 <= i < |groups| :: groups[i].category
  }

  function SumTotals(groups: seq<GroupTotal>): real {
    if groups == [] then 0.0 else SumTotals(groups[..|groups| - 1]) + groups[|groups| - 1].total
  }

  function SumRows(rows: seq<CategoryTotal>): real {
    if rows == [] then 0.0 else SumRows(rows[..|rows| - 1]) + rows[|rows| - 1].totalAmount
  }

  /** `groups` is a `GROUP BY category` of `es` with `SUM(amount)`: one row
      per distinct stored category, no row for a category without members,
      each total the sum over its group. The order is left open. */
  ghost predicate IsGrouping(groups: seq<GroupTotal>, es: set<Expense>) {
    (forall i, j | 0 <= i < j < |groups| :: groups[i].category != groups[j].category)
    && GroupKeys(groups) == Categories(es)
    && (forall i | 0 <= i < |groups| :: groups[i].total == SumAmounts(InCategory(es, groups[i].category)))
  }

  /** The list comprehension that turns grouped rows into answer entries. */
  function Labelled(groups: seq<GroupTotal>): (rows: seq<CategoryTotal>)
    ensures |rows| == |groups|
    ensures SumRows(rows) == SumTotals(groups)
  {
    if groups == [] then []
    else
      var init := groups[..|groups| - 1];
      var last := groups[|groups| - 1];
      var rows := Labelled(init) + [CategoryTotal(Label(last.category), last.total)];
      assert rows[..|rows| - 1] == Labelled(init);
      rows
  }

  lemma LabelledAt(groups: seq<GroupTotal>, i: int)
    requires 0 <= i < |groups|
    ensures Labelled(groups)[i] == CategoryTotal(Label(groups[i].category), groups[i].total)
  {
    if i < |groups| - 1 {
      LabelledAt(groups[..|groups| - 1], i);
    }
  }

  /** The answer for `es`: the grouped rows, labelled. */
  ghost predicate IsMonthlySummary(rows: seq<CategoryTotal>, es: set<Expense>) {
    exists groups :: IsGrouping(groups, es) && rows == Labelled(groups)
  }

  lemma GroupStep(done: set<Expense>, e: Expense, totals: map<Option<string>, real>)
    requires e !in done
    requires totals.Keys == Categories(done)
    requires forall c | c in totals :: totals[c] == SumAmounts(InCategory(done, c))
    ensures var t' := totals[e.category := (if e.category in totals then totals[e.category] else 0.0) + e.amount];
            && t'.Keys == Categories(done + {e})
            && forall c | c in t' :: t'[c] == SumAmounts(InCategory(done + {e}, c))
  {
    var t' := totals[e.category := (if e.category in totals then totals[e.category] else 0.0) + e.amount];
    forall c | c in t' ensures t'[c] == SumAmounts(InCategory(done + {e}, c)) {
      if c == e.category {
        assert InCategory(done + {e}, c) == InCategory(done, c) + {e};
        SumAmountsAdd(InCategory(done, c), e);
        if c !in totals {
          assert InCategory(done, c) == {};
        }
      } else {
        assert InCategory(done + {e}, c) == InCategory(done, c);
      }
    }
  }

  lemma EmitStep(es: set<Expense>, emitted: set<Option<string>>, c: Option<string>)
    requires c !in emitted
    ensures SumAmounts(InCategories(es, emitted + {c}))
            == SumAmounts(InCategories(es, emitted)) + SumAmounts(InCategory(es, c))
  {
    assert InCategories(es, emitted + {c}) == InCategories(es, emitted) + InCategory(es, c);
    SumAmountsUnion(InCategories(es, emitted), InCategory(es, c));
  }

  lemma GroupKeysAppend(groups: seq<GroupTotal>, g: GroupTotal)
    ensures GroupKeys(groups + [g]) == GroupKeys(groups) + {g.category}
  {
    var gs := groups + [g];
    forall x | x in GroupKeys(gs) ensures x in GroupKeys(groups) + {g.category} {
      var i :| 0 <= i < |gs| && gs[i].category == x;
      if i < |groups| {
        assert groups[i].category == x;
      }
    }
    forall x | x in GroupKeys(groups) + {g.category} ensures x in GroupKeys(gs) {
      if x == g.category {
        assert gs[|groups|].category == x;
      } else {
        var i :| 0 <= i < |groups| && groups[i].category == x;
        assert gs[i].category == x;
      }
    }
  }

  /** What appending one row does to the keys, the distinctness and the sum. */
  lemma AppendGroup(groups: seq<GroupTotal>, g: GroupTotal)
    requires forall i, j | 0 <= i < j < |groups| :: groups[i].category != groups[j].category
    requires g.category !in GroupKeys(groups)
    ensures SumTotals(groups + [g]) == SumTotals(groups) + g.total
    ensures forall i, j | 0 <= i < j < |groups + [g]| :: (groups + [g])[i].category != (groups + [g])[j].category
  {
    GroupKeysAppend(groups, g);
    assert (groups + [g])[..|groups|] == groups;
    forall i | 0 <= i < |groups| ensures groups[i].category != g.category {
      assert groups[i].category in GroupKeys(groups);
    }
  }

  /** The per-category sums of `es`, keyed by stored category. */
  method SumByCategory(es: set<Expense>) returns (totals: map<Option<string>, real>)
    ensures totals.Keys == Categories(es)
    ensures forall c | c in totals :: totals[c] == SumAmounts(InCategory(es, c))
  {
    totals := map[];
    var rest := es;
    while rest != {}
      invariant rest <= es
      invariant totals.Keys == Categories(es - rest)
      invariant forall c | c in totals :: totals[c] == SumAmounts(InCategory(es - rest, c))
      decreases |rest|
    {
      var e :| e in rest;
      GroupStep(es - rest, e, totals);
      assert es - (rest - {e}) == (es - rest) + {e};
      totals := totals[e.category := (if e.category in totals then totals[e.category] else 0.0) + e.amount];
      rest := rest - {e};
    }
    assert es - rest == es;
  }

  /** `groups` is the grouping of the expenses whose category is in `emitted`. */
  ghost predicate PartialGrouping(groups: seq<GroupTotal>, es: set<Expense>, emitted: set<Option<string>>) {
    (forall i, j | 0 <= i < j < |groups| :: groups[i].category != groups[j].category)
    && GroupKeys(groups) == emitted
    && (forall i | 0 <= i < |groups| :: groups[i].total == SumAmounts(InCategory(es, groups[i].category)))
    && SumTotals(groups) == SumAmounts(InCategories(es, emitted))
  }

  lemma EmitOne(groups: seq<GroupTotal>, es: set<Expense>, emitted: set<Option<string>>, c: Option<string>, t: real)
    requires PartialGrouping(groups, es, emitted)
    requires c !in emitted && t == SumAmounts(InCategory(es, c))
    ensures PartialGrouping(groups + [GroupTotal(c, t)], es, emitted + {c})
  {
    var g := GroupTotal(c, t);
    EmitStep(es, emitted, c);
    GroupKeysAppend(groups, g);
    AppendGroup(groups, g);
    var gs := groups + [g];
    forall i | 0 <= i < |gs| ensures gs[i].total == SumAmounts(InCategory(es, gs[i].category)) {
      if i < |groups| {
        assert gs[i] == groups[i];
      }
    }
  }

  lemma CompleteGrouping(groups: seq<GroupTotal>, es: set<Expense>)
    requires PartialGrouping(groups, es, Categories(es))
    ensures IsGrouping(groups, es)
    ensures SumTotals(groups) == SumAmounts(es)
  {
    assert InCategories(es, Categories(es)) == es;
  }

  /** Lists the entries of `totals` as grouped rows, in no particular order. */
  method EmitGroups(es: set<Expense>, totals: map<Option<string>, real>) returns (groups: seq<GroupTotal>)
    requires totals.Keys == Categories(es)
    requires forall c | c in totals :: totals[c] == SumAmounts(InCategory(es, c))
    ensures IsGrouping(groups, es)
    ensures SumTotals(groups) == SumAmounts(es)
  {
    groups := [];
    var keys := totals.Keys;
    assert InCategories(es, {}) == {};
    while keys != {}
      invariant keys <= totals.Keys
      invariant PartialGrouping(groups, es, totals.Keys - keys)
      decreases |keys|
    {
      var c :| c in keys;
      EmitOne(groups, es, totals.Keys - keys, c, totals[c]);
      assert totals.Keys - (keys - {c}) == (totals.Keys - keys) + {c};
      groups := groups + [GroupTotal(c, totals[c])];
      keys := keys - {c};
    }
    CompleteGrouping(groups, es);
  }

  /** Groups `es` by stored category and sums each group, in no particular order. */
  method GroupByCategory(es: set<Expense>) returns (groups: seq<GroupTotal>)
    ensures IsGrouping(groups, es)
    ensures SumTotals(groups) == SumAmounts(es)
    ensures groups == [] <==> es == {}
  {
    var totals := SumByCategory(es);
    groups := EmitGroups(es, totals);
    if es != {} {
      var e :| e in es;
      assert e.category in GroupKeys(groups);
    }
  }

  /** The per-category totals of user `u` for one month. A NULL or empty
      category is labelled "Uncategorized"; a month without expenses gives an
      empty list; the totals add up to the month's spending. */
  method GetMonthlyExpensesByCategory(s: State, u: int, year: int, month: int) returns (rows: seq<CategoryTotal>)
    requires ExpensesKeyed(s)
    ensures IsMonthlySummary(rows, MonthRows(s, u, year, month))
    ensures rows == [] <==> MonthRows(s, u, year, month) == {}
    ensures SumRows(rows) == SumAmounts(MonthRows(s, u, year, month))
  {
    var groups := GroupByCategory(MonthRows(s, u, year, month));
    rows := Labelled(groups);
  }
}
