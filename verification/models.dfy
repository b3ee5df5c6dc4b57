/** The two tables, `users` and `expenses`, and the constraints the schema
    and the request validation keep on them. The database is an immutable
    `State`; the next-id counters stand for the tables' autoincrement keys. */
module Models {
  import opened Wrappers
  import opened Dates

  /** Column sizes of the schema (`String(n)`). */
  const DescriptionMaxLength := 255
  const CategoryMaxLength := 100

  /** `password` holds the hash, never the plaintext. `createdAt` is the
      clock value at insertion. The two refresh-token columns exist in the
      schema but no operation writes them. */
  datatype User = User(
    id: int,
    name: string,
    email: string,
    password: string,
    createdAt: int,
    refreshToken: Option<string>,
    refreshTokenExpiresAt: Option<int>)

  /** `category` is the only nullable column of an expense. */
  datatype Expense = Expense(
    id: int,
    amount: real,
    description: string,
    expenseDate: Date,
    category: Option<string>,
    userId: int)

  datatype State = State(
    users: map<int, User>,
    expenses: map<int, Expense>,
    nextUserId: int,
    nextExpenseId: int)

  const EmptyState := State(map[], map[], 1, 1)

  /** A constraint violation the database reports at commit time (duplicate
      unique key, NULL in a NOT NULL column); the change is rolled back. */
  datatype DbError = IntegrityError

  /** The bounds request validation puts on an expense's fields; the text
      bounds are also the column sizes. */
  predicate ExpenseFieldsOk(amount: real, description: string, category: Option<string>) {
    amount > 0.0
    && |description| <= DescriptionMaxLength
    && (category.Some? ==> |category.value| <= CategoryMaxLength)
  }

  predicate UsersKeyed(s: State) {
    1 <= s.nextUserId
    && forall k | k in s.users :: s.users[k].id == k && 1 <= k < s.nextUserId
  }

  predicate ExpensesKeyed(s: State) {
    1 <= s.nextExpenseId
    && forall k | k in s.expenses :: s.expenses[k].id == k && 1 <= k < s.nextExpenseId
  }

  /** The unique index on `users.email` (an exact, case-sensitive comparison). */
  predicate EmailsUnique(users: map<int, User>) {
    forall a, b | a in users && b in users && a != b :: users[a].email != users[b].email
  }

  /** The foreign key `expenses.user_id -> users.id`: no orphan expenses. */
  predicate OwnersExist(s: State) {
    forall k | k in s.expenses :: s.expenses[k].userId in s.users
  }

  predicate ExpensesWellFormed(s: State) {
    forall k | k in s.expenses ::
      ExpenseFieldsOk(s.expenses[k].amount, s.expenses[k].description, s.expenses[k].category)
  }

  predicate RefreshColumnsUnused(s: State) {
    forall k | k in s.users :: s.users[k].refreshToken.None? && s.users[k].refreshTokenExpiresAt.None?
  }

  /** Everything that holds of every reachable database state. */
  predicate Valid(s: State) {
    UsersKeyed(s)
    && ExpensesKeyed(s)
    && EmailsUnique(s.users)
    && OwnersExist(s)
    && ExpensesWellFormed(s)
    && RefreshColumnsUnused(s)
  }

  lemma EmptyStateValid()
    ensures Valid(EmptyState)
  {
  }
}
