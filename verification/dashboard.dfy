/** The four figures of src/components/Dashboard.tsx: this month's income and
    expenses, the all-time balance and the savings rate. "Now" is a parameter. */
module Dashboard {
  import opened Seqs
  import opened Dates
  import opened Types
  import TransactionList

  predicate IsIncome(t: Transaction) { t.kind == Income }
  predicate IsExpense(t: Transaction) { t.kind == Expense }

  /** Transactions whose month and year are those of `now`. */
  function MonthlyTransactions(ts: seq<Transaction>, now: CalendarDate): seq<Transaction>
  {
    Filter(ts, (t: Transaction) => MonthOf(t.date) == MonthOf(now))
  }

  function TotalIncome(ts: seq<Transaction>, now: CalendarDate): int
  {
    Sum(Filter(MonthlyTransactions(ts, now), IsIncome), Amount)
  }

  function TotalExpenses(ts: seq<Transaction>, now: CalendarDate): int
  {
    Sum(Filter(MonthlyTransactions(ts, now), IsExpense), Amount)
  }

  /** The signed amount the balance fold adds: income counts up, anything
      else counts down. */
  function Signed(t: Transaction): int
  {
    if t.kind == Income then t.amount else -t.amount
  }

  /** `transactions.reduce(...)` over all transactions, not just this month. */
  function TotalBalance(ts: seq<Transaction>): int
  {
    Sum(ts, Signed)
  }

  /** Net savings as a percentage of income; 0 when there is no positive income. */
  function SavingsRate(income: int, expenses: int): (rate: real)
    ensures income <= 0 ==> rate == 0.0
    ensures income > 0 ==> rate * income as real == (income - expenses) as real * 100.0
    ensures income > 0 && expenses >= 0 ==> rate <= 100.0
  {
    if income > 0 then ((income - expenses) as real / income as real) * 100.0 else 0.0
  }

  datatype Metrics = Metrics(totalBalance: int, totalIncome: int, totalExpenses: int, savingsRate: real)

  function DashboardMetrics(ts: seq<Transaction>, now: CalendarDate): Metrics
  {
    var income := TotalIncome(ts, now);
    var expenses := TotalExpenses(ts, now);
    Metrics(TotalBalance(ts), income, expenses, SavingsRate(income, expenses))
  }

  /** The balance is all-time income minus all-time expenses. */
  lemma {:induction false} BalanceIsIncomeMinusExpenses(ts: seq<Transaction>)
    ensures TotalBalance(ts) == Sum(Filter(ts, IsIncome), Amount) - Sum(Filter(ts, IsExpense), Amount)
    decreases |ts|
  {
    if ts != [] {
      BalanceIsIncomeMinusExpenses(ts[1..]);
      var hi := if IsIncome(ts[0]) then [ts[0]] else [];
      var he := if IsExpense(ts[0]) then [ts[0]] else [];
      SumConcat(hi, Filter(ts[1..], IsIncome), Amount);
      SumConcat(he, Filter(ts[1..], IsExpense), Amount);
    }
  }

  /** All four figures are additive over concatenation of transaction lists
      (the rate through its two inputs). */
  lemma TotalsAdditive(a: seq<Transaction>, b: seq<Transaction>, now: CalendarDate)
    ensures TotalBalance(a + b) == TotalBalance(a) + TotalBalance(b)
    ensures TotalIncome(a + b, now) == TotalIncome(a, now) + TotalIncome(b, now)
    ensures TotalExpenses(a + b, now) == TotalExpenses(a, now) + TotalExpenses(b, now)
  {
    SumConcat(a, b, Signed);
    var inMonth := (t: Transaction) => MonthOf(t.date) == MonthOf(now);
    FilterConcat(a, b, inMonth);
    var ma, mb := Filter(a, inMonth), Filter(b, inMonth);
    FilterConcat(ma, mb, IsIncome);
    FilterConcat(ma, mb, IsExpense);
    SumConcat(Filter(ma, IsIncome), Filter(mb, IsIncome), Amount);
    SumConcat(Filter(ma, IsExpense), Filter(mb, IsExpense), Amount);
  }

  /** A transaction outside the current month moves the balance only. */
  lemma OtherMonthsOnlyMoveBalance(ts: seq<Transaction>, t: Transaction, now: CalendarDate)
    requires MonthOf(t.date) != MonthOf(now)
    ensures TotalIncome(ts + [t], now) == TotalIncome(ts, now)
    ensures TotalExpenses(ts + [t], now) == TotalExpenses(ts, now)
    ensures TotalBalance(ts + [t]) == TotalBalance(ts) + Signed(t)
  {
    TotalsAdditive(ts, [t], now);
    assert [t][1..] == [];
    assert Sum([t], Signed) == Signed(t) + Sum([], Signed);
  }

  /** No transactions: every figure is zero. */
  lemma EmptyIsZero(now: CalendarDate)
    ensures DashboardMetrics([], now) == Metrics(0, 0, 0, 0.0)
  {
  }

  /** The month filter of the dashboard is the list's `month` window. */
  lemma MonthWindowIsMonthlyTransactions(ts: seq<Transaction>, cs: seq<Category>, now: CalendarDate)
    ensures TransactionList.FilteredTransactions(ts, cs, Month, "", TransactionList.NoFilters(), now)
            == MonthlyTransactions(ts, now)
  {
    forall i | 0 <= i < |ts|
      ensures TransactionList.Keep(ts[i], cs, Month, "", TransactionList.NoFilters(), now)
              == (MonthOf(ts[i].date) == MonthOf(now))
    {
      TransactionList.MonthWindowIsCurrentMonth(ts[i], now);
    }
    FilterCongruent(ts, (t: Transaction) => TransactionList.Keep(t, cs, Month, "", TransactionList.NoFilters(), now),
                        (t: Transaction) => MonthOf(t.date) == MonthOf(now));
  }

  /** Income 1000 and expense 200 in March 2024: balance 800, rate 80%. */
  lemma MarchExample()
    ensures var ts := [
        Transaction("a", 1000, Income, "7", "Salary", Date(2024, 3, 1), None, None, None),
        Transaction("b", 200, Expense, "1", "Groceries", Date(2024, 3, 5), None, None, None)];
      DashboardMetrics(ts, Date(2024, 3, 20)) == Metrics(800, 1000, 200, 80.0)
  {
    var ts := [
        Transaction("a", 1000, Income, "7", "Salary", Date(2024, 3, 1), None, None, None),
        Transaction("b", 200, Expense, "1", "Groceries", Date(2024, 3, 5), None, None, None)];
    var now: CalendarDate := Date(2024, 3, 20);
    assert MonthlyTransactions(ts, now) == ts;
    var income, expenses := Filter(ts, IsIncome), Filter(ts, IsExpense);
    assert income == [ts[0]] && expenses == [ts[1]];
    assert Sum(income, Amount) == Amount(ts[0]) + Sum(income[1..], Amount);
    assert Sum(expenses, Amount) == Amount(ts[1]) + Sum(expenses[1..], Amount);
    assert Sum(ts, Signed) == Signed(ts[0]) + Sum(ts[1..], Signed);
    assert Sum(ts[1..], Signed) == Signed(ts[1]) + Sum(ts[2..], Signed);
  }
}
