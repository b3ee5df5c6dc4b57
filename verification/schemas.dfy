/** Request bodies for expenses and users. A patch field is either left out
    of the request (`Keep`) or sent (`Put`); an expense patch may send an
    explicit `null`, hence the `Option` inside `Put`. */
module Schemas {
  import opened Wrappers
  import opened Dates
  import opened Models

  /** `expenseDate == None` means the client omitted the field. */
  datatype ExpenseCreate = ExpenseCreate(
    amount: real,
    description: string,
    expenseDate: Option<Date>,
    category: Option<string>)

  datatype Patch<T> = Keep | Put(value: T)

  /** There is no `id` and no `user_id` field: a patch cannot move an expense. */
  datatype ExpenseUpdate = ExpenseUpdate(
    amount: Patch<Option<real>>,
    description: Patch<Option<string>>,
    expenseDate: Patch<Option<Date>>,
    category: Patch<Option<string>>)

  datatype UserCreate = UserCreate(name: string, email: string, password: string)

  datatype UserUpdate = UserUpdate(name: Patch<string>, email: Patch<string>, password: Patch<string>)

  /** What validation accepts for a new expense: a positive amount, a
      description of at most 255 characters, a category of at most 100. */
  predicate ValidExpenseCreate(c: ExpenseCreate) {
    ExpenseFieldsOk(c.amount, c.description, c.category)
  }

  /** The same bounds, applied only to the fields that are sent with a value. */
  predicate ValidExpenseUpdate(p: ExpenseUpdate) {
    (p.amount.Put? && p.amount.value.Some? ==> p.amount.value.value > 0.0)
    && (p.description.Put? && p.description.value.Some? ==> |p.description.value.value| <= DescriptionMaxLength)
    && (p.category.Put? && p.category.value.Some? ==> |p.category.value.value| <= CategoryMaxLength)
  }

  /** The value a field ends up with: the sent one, or the current one. */
  function Merge<T>(current: T, p: Patch<T>): T {
    if p.Put? then p.value else current
  }
}
