/** Sums of amounts over sets of expenses, and grouping by the stored
    category. These are the reference definitions the monthly summary is
    proved against. */
module Totals {
  import opened Wrappers
  import opened Models

  /** The sum of `amount` over a set of expenses. */
  ghost function SumAmounts(es: set<Expense>): real
    decreases |es|
  {
    if es == {} then 0.0
    else
      var e :| e in es;
      e.amount + SumAmounts(es - {e})
  }

  /** The sum does not depend on which element is taken out first. */
  lemma {:induction false} SumAmountsRemove(es: set<Expense>, e: Expense)
    requires e in es
    ensures SumAmounts(es) == e.amount + SumAmounts(es - {e})
    decreases |es|
  {
    var x :| x in es && SumAmounts(es) == x.amount + SumAmounts(es - {x});
    if x != e {
      SumAmountsRemove(es - {x}, e);
      SumAmountsRemove(es - {e}, x);
      assert es - {x} - {e} == es - {e} - {x};
    }
  }

  lemma SumAmountsAdd(es: set<Expense>, e: Expense)
    requires e !in es
    ensures SumAmounts(es + {e}) == SumAmounts(es) + e.amount
  {
    SumAmountsRemove(es + {e}, e);
    assert es + {e} - {e} == es;
  }

  /** Summing over two disjoint sets is summing over their union. */
  lemma {:induction false} SumAmountsUnion(a: set<Expense>, b: set<Expense>)
    requires a !! b
    ensures SumAmounts(a + b) == SumAmounts(a) + SumAmounts(b)
    decreases |b|
  {
    if b != {} {
      var e :| e in b;
      SumAmountsUnion(a, b - {e});
      assert a + b == (a + (b - {e})) + {e};
      SumAmountsAdd(a + (b - {e}), e);
      SumAmountsRemove(b, e);
    } else {
      assert a + b == a;
    }
  }

  /** A sum of positive amounts over a non-empty set is positive. */
  lemma {:induction false} SumAmountsPositive(es: set<Expense>)
    requires es != {}
    requires forall e | e in es :: e.amount > 0.0
    ensures SumAmounts(es) > 0.0
    decreases |es|
  {
    var e :| e in es;
    SumAmountsRemove(es, e);
    if es - {e} != {} {
      SumAmountsPositive(es - {e});
    }
  }

  /** The distinct stored categories (NULL included) among `es`: the groups of
      a `GROUP BY category`. */
  function Categories(es: set<Expense>): set<Option<string>> {
    set e | e in es :: e.category
  }

  /** The members of one group. */
  function InCategory(es: set<Expense>, c: Option<string>): set<Expense> {
    set e | e in es && e.category == c
  }

  /** The members of the groups in `cs`. */
  function InCategories(es: set<Expense>, cs: set<Option<string>>): set<Expense> {
    set e | e in es && e.category in cs
  }
}
