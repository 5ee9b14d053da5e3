/** The records of src/types.ts. Amounts are whole currency units (`int`);
    dates are calendar days (see module Dates); optional fields are `Option`s. */
module Types {
  import opened Seqs
  import opened Dates

  datatype Category = Category(id: string, name: string, icon: string, color: string)

  datatype TxType = Income | Expense

  datatype Interval = Monthly | Weekly | Yearly

  /** A transaction refers to its category by id only; the three recurrence
      fields are optional independently of each other. */
  datatype Transaction = Transaction(
    id: string,
    amount: int,
    kind: TxType,
    category: string,
    description: string,
    date: CalendarDate,
    isRecurring: Option<bool>,
    recurringInterval: Option<Interval>,
    nextRecurringDate: Option<CalendarDate>)

  datatype Budget = Budget(categoryId: string, limit: int)

  datatype Theme = Light | Dark

  datatype DateRange = Day | Week | Month | All

  /** The type column filter: `all` or one of the two transaction types. */
  datatype TypeFilter = AllTypes | OnlyType(kind: TxType)

  /** The per-column filters of the transaction list; every text field is
      free text, the empty string meaning "no restriction". */
  datatype FilterState = FilterState(
    date: string,
    category: string,
    description: string,
    amount: string,
    kind: TypeFilter)

  /** The amount a total adds for a transaction. */
  function Amount(t: Transaction): int
  {
    t.amount
  }

  /** JavaScript truthiness of the optional `isRecurring` flag. */
  predicate IsRecurring(t: Transaction)
  {
    t.isRecurring == Some(true)
  }
}
