/** The `/expenses` endpoints. Every single-record operation first loads the
    expense and answers the same 404 "Expense not found" whether it is
    absent or belongs to someone else, so a caller learns nothing about
    other users' records. `caller` is the user the bearer token resolved to. */
module ExpenseRouter {
  import opened Wrappers
  import opened Dates
  import opened Http
  import opened Models
  import opened Schemas
  import opened Totals
  import ExpenseRepo

  const ExpenseNotFound := ApiError(NotFound, "Expense not found")
  const UpdateFailed := ApiError(BadRequest, "Failed to update expense")
  const DeleteFailed := ApiError(BadRequest, "Failed to delete expense")

  /** `caller` may see and change expense `id`. */
  predicate OwnedBy(s: State, id: int, caller: User) {
    id in s.expenses && s.expenses[id].userId == caller.id
  }

  /** `POST /expenses/`: the new expense always belongs to the caller. */
  function CreateExpense(s: State, caller: User, c: ExpenseCreate, today: Date): (r: (Result<Expense, ApiError>, State))
    requires Valid(s)
    ensures r.0.Ok?
    ensures r.0.value.userId == caller.id
    ensures r.0.value.amount == c.amount && r.0.value.description == c.description
            && r.0.value.category == c.category && r.0.value.expenseDate == c.expenseDate.GetOr(today)
    ensures r.0.value.id !in s.expenses && r.1.expenses == s.expenses[r.0.value.id := r.0.value]
    ensures r.1.users == s.users
    ensures ValidExpenseCreate(c) && caller.id in s.users ==> Valid(r.1)
  {
    var (e, s') := ExpenseRepo.CreateExpense(s, c, caller.id, today);
    (Ok(e), s')
  }

  /** `GET /expenses/{id}`. */
  function ReadExpense(s: State, caller: User, id: int): (r: Result<Expense, ApiError>)
    requires Valid(s)
    ensures !OwnedBy(s, id, caller) ==> r == Err(ExpenseNotFound)
    ensures OwnedBy(s, id, caller) ==> r == Ok(s.expenses[id])
  {
    match ExpenseRepo.GetExpenseById(s, id)
    case None => Err(ExpenseNotFound)
    case Some(e) => if e.userId != caller.id then Err(ExpenseNotFound) else Ok(e)
  }

  /** `GET /expenses/user/me`: the caller's expenses and nobody else's, newest first. */
  method ReadExpensesByUser(s: State, caller: User) returns (r: seq<Expense>)
    requires ExpensesKeyed(s)
    ensures multiset(r) == multiset(ExpenseRepo.Owned(s, caller.id))
    ensures forall i | 0 <= i < |r| :: r[i].userId == caller.id && r[i] in s.expenses.Values
    ensures ExpenseRepo.NewestFirst(r)
  {
    r := ExpenseRepo.GetExpensesByUserId(s, caller.id);
    forall i | 0 <= i < |r| ensures r[i].userId == caller.id && r[i] in s.expenses.Values {
      assert r[i] in multiset(r);
    }
  }

  /** `PUT /expenses/{id}`: only the owner's own expense can change, and only
      in the fields sent. The repository cannot report a missing row here, so
      the 400 branch never fires; an explicit null for a NOT NULL field is
      refused by the database (500). */
  function UpdateExpense(s: State, caller: User, id: int, p: ExpenseUpdate): (r: (Result<Expense, ApiError>, State))
    requires Valid(s)
    ensures !OwnedBy(s, id, caller) ==> r == (Err(ExpenseNotFound), s)
    ensures r.0 != Err(UpdateFailed)
    ensures r.0.Err? ==> r.1 == s
    ensures OwnedBy(s, id, caller) ==>
              match ExpenseRepo.ApplyExpenseUpdate(s.expenses[id], p)
              case Err(_) => r == (Err(ServerError), s)
              case Ok(e) => r == (Ok(e), s.(expenses := s.expenses[id := e]))
    ensures forall k | k in s.expenses && s.expenses[k].userId != caller.id ::
              k in r.1.expenses && r.1.expenses[k] == s.expenses[k]
    ensures ValidExpenseUpdate(p) ==> Valid(r.1)
  {
    match ExpenseRepo.GetExpenseById(s, id)
    case None => (Err(ExpenseNotFound), s)
    case Some(e) =>
      if e.userId != caller.id then (Err(ExpenseNotFound), s)
      else
        var (updated, s') := ExpenseRepo.UpdateExpense(s, id, p);
        match updated
        case Err(_) => (Err(ServerError), s)
        case Ok(None) => (Err(UpdateFailed), s)
        case Ok(Some(e')) => (Ok(e'), s')
  }

  /** `DELETE /expenses/{id}`: only the owner's own expense can go, and
      nothing else does; the 400 branch never fires. */
  function DeleteExpense(s: State, caller: User, id: int): (r: (Result<(), ApiError>, State))
    requires Valid(s)
    ensures !OwnedBy(s, id, caller) ==> r == (Err(ExpenseNotFound), s)
    ensures OwnedBy(s, id, caller) ==> r == (Ok(()), s.(expenses := s.expenses - {id}))
    ensures r.0 != Err(DeleteFailed)
    ensures forall k | k in s.expenses && s.expenses[k].userId != caller.id ::
              k in r.1.expenses && r.1.expenses[k] == s.expenses[k]
    ensures Valid(r.1)
  {
    match ExpenseRepo.GetExpenseById(s, id)
    case None => (Err(ExpenseNotFound), s)
    case Some(e) =>
      if e.userId != caller.id then (Err(ExpenseNotFound), s)
      else
        var (deleted, s') := ExpenseRepo.DeleteExpense(s, id);
        if !deleted then (Err(DeleteFailed), s) else (Ok(()), s')
  }

  datatype MonthlySummary = MonthlySummary(year: int, month: int, summary: seq<ExpenseRepo.CategoryTotal>)

  /** `GET /expenses/summary/{year}/{month}`: the caller's totals for that
      month, with the requested year and month echoed back. */
  method GetMonthlyExpensesSummary(s: State, caller: User, year: int, month: int) returns (r: MonthlySummary)
    requires ExpensesKeyed(s)
    ensures r.year == year && r.month == month
    ensures ExpenseRepo.IsMonthlySummary(r.summary, ExpenseRepo.MonthRows(s, caller.id, year, month))
    ensures r.summary == [] <==> ExpenseRepo.MonthRows(s, caller.id, year, month) == {}
    ensures ExpenseRepo.SumRows(r.summary) == SumAmounts(ExpenseRepo.MonthRows(s, caller.id, year, month))
  {
    var rows := ExpenseRepo.GetMonthlyExpensesByCategory(s, caller.id, year, month);
    r := MonthlySummary(year, month, rows);
  }

  /** Once a delete has succeeded, reading the same id is a 404. */
  lemma DeleteThenReadIsNotFound(s: State, caller: User, id: int)
    requires Valid(s)
    requires DeleteExpense(s, caller, id).0.Ok?
    ensures ReadExpense(DeleteExpense(s, caller, id).1, caller, id) == Err(ExpenseNotFound)
  {
  }

  /** Absent and foreign expenses are indistinguishable: read, update and
      delete give the identical answer and leave the store as it was. */
  lemma ForeignLooksAbsent(s: State, caller: User, foreign: int, absent: int, p: ExpenseUpdate)
    requires Valid(s)
    requires foreign in s.expenses && s.expenses[foreign].userId != caller.id
    requires absent !in s.expenses
    ensures ReadExpense(s, caller, foreign) == ReadExpense(s, caller, absent)
    ensures UpdateExpense(s, caller, foreign, p) == UpdateExpense(s, caller, absent, p)
    ensures DeleteExpense(s, caller, foreign) == DeleteExpense(s, caller, absent)
  {
  }
}
