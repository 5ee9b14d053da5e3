/** The budget panel of src/components/BudgetAlerts.tsx: per-category spend,
    the guarded budget editor, the usage percentage and its colour band. */
module BudgetAlerts {
  import opened Seqs
  import opened Text
  import opened Types
  import opened Store

  predicate IsExpenseOf(t: Transaction, categoryId: string)
  {
    t.category == categoryId && t.kind == Expense
  }

  /** `getCategoryExpenses`: the sum of the category's expense amounts. */
  function CategoryExpenses(ts: seq<Transaction>, categoryId: string): int
  {
    Sum(Filter(ts, (t: Transaction) => IsExpenseOf(t, categoryId)), Amount)
  }

  /** Income and other categories do not count; each expense of the
      category adds its amount. */
  lemma {:induction false} CategoryExpensesSpec(ts: seq<Transaction>, categoryId: string, t: Transaction)
    ensures CategoryExpenses([], categoryId) == 0
    ensures CategoryExpenses(ts + [t], categoryId) ==
            CategoryExpenses(ts, categoryId) + (if IsExpenseOf(t, categoryId) then t.amount else 0)
  {
    var p := (u: Transaction) => IsExpenseOf(u, categoryId);
    FilterConcat(ts, [t], p);
    SumConcat(Filter(ts, p), Filter([t], p), Amount);
  }

  /** With positive amounts, spend is never negative. */
  lemma CategoryExpensesNonNegative(ts: seq<Transaction>, categoryId: string)
    requires forall i :: 0 <= i < |ts| ==> ts[i].amount > 0
    ensures CategoryExpenses(ts, categoryId) >= 0
  {
    var f := Filter(ts, (t: Transaction) => IsExpenseOf(t, categoryId));
    forall i | 0 <= i < |f| ensures Amount(f[i]) >= 0 {
      assert f[i] in f;
    }
    SumNonNegative(f, Amount);
  }

  /** `budgets.find(b => b.categoryId === id)`: the first budget of a category. */
  function FindBudget(bs: seq<Budget>, categoryId: string): (r: Option<Budget>)
    ensures r.Some? ==> r.value in bs && r.value.categoryId == categoryId
    ensures r.None? <==> forall i :: 0 <= i < |bs| ==> bs[i].categoryId != categoryId
    ensures r.Some? ==> exists k :: 0 <= k < |bs| && bs[k] == r.value &&
                          forall j :: 0 <= j < k ==> bs[j].categoryId != categoryId
    decreases |bs|
  {
    if bs == [] then None
    else if bs[0].categoryId == categoryId then Some(bs[0])
    else
      var r := FindBudget(bs[1..], categoryId);
      if r.Some? then
        ghost var k :| 0 <= k < |bs[1..]| && bs[1..][k] == r.value &&
                       forall j :: 0 <= j < k ==> bs[1..][j].categoryId != categoryId;
        assert bs[k + 1] == r.value;
        r
      else r
  }

  /** Usage in percent of the budget; 0 without a budget. */
  function Percentage(expenses: int, budget: Option<Budget>): (p: real)
    requires budget.Some? ==> budget.value.limit != 0
    ensures budget.None? ==> p == 0.0
    ensures budget.Some? ==> p * budget.value.limit as real == expenses as real * 100.0
  {
    match budget
    case Some(b) => (expenses as real / b.limit as real) * 100.0
    case None => 0.0
  }

  datatype Band = Emerald | Amber | Rose

  /** The colour of the bar and of the percentage label. */
  function BandOf(p: real): Band
  {
    if p > 90.0 then Rose else if p > 70.0 then Amber else Emerald
  }

  function Severity(b: Band): nat
  {
    match b
    case Emerald => 0
    case Amber => 1
    case Rose => 2
  }

  /** The three bands partition the percentages at 70 and 90, and more
      spending never gives a milder band. */
  lemma BandThresholds(p: real, q: real)
    ensures BandOf(p) == Rose <==> p > 90.0
    ensures BandOf(p) == Amber <==> 70.0 < p <= 90.0
    ensures BandOf(p) == Emerald <==> p <= 70.0
    ensures p <= q ==> Severity(BandOf(p)) <= Severity(BandOf(q))
  {
  }

  /** The bar width: the percentage capped at 100. */
  function BarWidth(p: real): (w: real)
    ensures w <= 100.0 && w <= p
    ensures w == p || w == 100.0
  {
    if p <= 100.0 then p else 100.0
  }

  /** Every budget limit is positive: what the guarded editor maintains. */
  predicate PositiveLimits(bs: seq<Budget>)
  {
    forall b :: b in bs ==> b.limit > 0
  }

  /** Setting a positive budget keeps all limits positive, so the percentage
      of every budgeted category is defined. */
  lemma GuardedSetKeepsLimitsPositive(bs: seq<Budget>, b: Budget)
    requires PositiveLimits(bs) && b.limit > 0
    ensures PositiveLimits(BudgetsAfterSet(bs, b))
  {
    var f := Filter(bs, (x: Budget) => x.categoryId != b.categoryId);
    assert BudgetsAfterSet(bs, b) == f + [b];
  }

  /** The editor's guard: only a number above zero is accepted. */
  predicate AcceptsBudget(parsed: Parsed)
  {
    parsed.Num? && parsed.value > 0
  }

  /** `handleSetBudget`: on an accepted amount, set the budget and close the
      editor (`closed`); otherwise change nothing and keep the editor open. */
  method HandleSetBudget(store: ExpenseStore, categoryId: string, parsed: Parsed) returns (closed: bool)
    modifies store
    ensures closed <==> AcceptsBudget(parsed)
    ensures closed ==> store.budgets == BudgetsAfterSet(old(store.budgets), Budget(categoryId, parsed.value))
    ensures !closed ==> store.budgets == old(store.budgets)
    ensures store.transactions == old(store.transactions) && store.categories == old(store.categories)
    ensures store.theme == old(store.theme)
    ensures old(PositiveLimits(store.budgets)) ==> PositiveLimits(store.budgets)
    ensures old(store.Valid()) ==> store.Valid()
  {
    closed := AcceptsBudget(parsed);
    if closed {
      GuardedSetKeepsLimitsPositiveWhen(store.budgets, Budget(categoryId, parsed.value));
      store.SetBudget(Budget(categoryId, parsed.value));
    }
  }

  lemma GuardedSetKeepsLimitsPositiveWhen(bs: seq<Budget>, b: Budget)
    requires b.limit > 0
    ensures PositiveLimits(bs) ==> PositiveLimits(BudgetsAfterSet(bs, b))
  {
    if PositiveLimits(bs) {
      GuardedSetKeepsLimitsPositive(bs, b);
    }
  }

  /** What one row of the panel shows for a category. */
  datatype Row = Row(expenses: int, budget: Option<Budget>, percentage: real, band: Band, width: real)

  function RowFor(ts: seq<Transaction>, bs: seq<Budget>, c: Category): (r: Row)
    requires PositiveLimits(bs)
    ensures r.budget.None? ==> r.percentage == 0.0 && r.band == Emerald
    ensures r.budget.Some? ==>
      r.budget.value.categoryId == c.id &&
      r.percentage * r.budget.value.limit as real == r.expenses as real * 100.0
    ensures r.budget == FindBudget(bs, c.id) && r.expenses == CategoryExpenses(ts, c.id)
    ensures r.band == BandOf(r.percentage) && r.width == BarWidth(r.percentage)
  {
    var budget := FindBudget(bs, c.id);
    var expenses := CategoryExpenses(ts, c.id);
    var p := Percentage(expenses, budget);
    Row(expenses, budget, p, BandOf(p), BarWidth(p))
  }
}
