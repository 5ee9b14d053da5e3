/** The figures behind the charts of src/components/ExpenseChart.tsx: the
    per-category breakdown (largest first), its total, the list of month
    labels and the per-month buckets of each selected category, and the
    initial category selection. Chart drawing is not modelled. */
module ExpenseChart {
  import opened Seqs
  import opened Dates
  import opened Types
  import Store
  import BudgetAlerts

  /** One breakdown entry: `{ id, name, value, color }`. */
  datatype Slice = Slice(id: string, name: string, value: int, color: string)

  function Value(s: Slice): int
  {
    s.value
  }

  /** The categories the user has ticked, in category order. */
  function SelectedCategories(cs: seq<Category>, selected: seq<string>): seq<Category>
  {
    Filter(cs, (c: Category) => c.id in selected)
  }

  /** The entry of one category: its total expense amount over all time. */
  function SliceOf(ts: seq<Transaction>, c: Category): Slice
  {
    Slice(c.id, c.name, BudgetAlerts.CategoryExpenses(ts, c.id), c.color)
  }

  /** `categories.map(...)`. */
  function Slices(ts: seq<Transaction>, cs: seq<Category>): (r: seq<Slice>)
    ensures |r| == |cs|
    ensures forall i :: 0 <= i < |cs| ==> r[i] == SliceOf(ts, cs[i])
  {
    seq(|cs|, i requires 0 <= i < |cs| => SliceOf(ts, cs[i]))
  }

  predicate Positive(s: Slice)
  {
    s.value > 0
  }

  /** Non-increasing by value: what the comparator `b.value - a.value` asks for. */
  predicate SortedByValue(xs: seq<Slice>)
  {
    forall i, j :: 0 <= i < j < |xs| ==> xs[i].value >= xs[j].value
  }

  /** Places `x` after every entry of `s` whose value is at least its own, so
      entries of equal value keep their order (the sort is stable). */
  function Insert(s: seq<Slice>, x: Slice): (r: seq<Slice>)
    ensures multiset(r) == multiset(s) + multiset{x}
    decreases |s|
  {
    if s == [] || s[|s| - 1].value >= x.value then
      s + [x]
    else
      assert s == s[..|s| - 1] + [s[|s| - 1]];
      Insert(s[..|s| - 1], x) + [s[|s| - 1]]
  }

  /** Inserting into a sorted breakdown keeps it sorted. */
  lemma {:induction false} InsertSorted(s: seq<Slice>, x: Slice)
    requires SortedByValue(s)
    ensures SortedByValue(Insert(s, x))
    decreases |s|
  {
    if s != [] && s[|s| - 1].value < x.value {
      var init, last := s[..|s| - 1], s[|s| - 1];
      InsertSorted(init, x);
      var rest := Insert(init, x);
      forall i | 0 <= i < |rest| ensures rest[i].value >= last.value {
        assert rest[i] in multiset(init) + multiset{x};
        if rest[i] != x {
          var k :| 0 <= k < |init| && init[k] == rest[i];
          assert s[k] == init[k];
        }
      }
    }
  }

  /** `.sort((a, b) => b.value - a.value)`, as a stable insertion sort. */
  function SortByValue(xs: seq<Slice>): (r: seq<Slice>)
    ensures SortedByValue(r)
    ensures multiset(r) == multiset(xs)
    decreases |xs|
  {
    if xs == [] then []
    else
      assert xs == xs[..|xs| - 1] + [xs[|xs| - 1]];
      var sorted := SortByValue(xs[..|xs| - 1]);
      InsertSorted(sorted, xs[|xs| - 1]);
      Insert(sorted, xs[|xs| - 1])
  }

  /** The breakdown: selected categories, their totals, zero totals dropped,
      largest first. */
  function Breakdown(ts: seq<Transaction>, cs: seq<Category>, selected: seq<string>): seq<Slice>
  {
    SortByValue(Filter(Slices(ts, SelectedCategories(cs, selected)), Positive))
  }

  /** `totalExpense`: the sum of the breakdown values. */
  function TotalExpense(ts: seq<Transaction>, cs: seq<Category>, selected: seq<string>): int
  {
    Sum(Breakdown(ts, cs, selected), Value)
  }

  /** Reordering does not change a sum. */
  lemma {:induction false} SumInsert(s: seq<Slice>, x: Slice)
    ensures Sum(Insert(s, x), Value) == Sum(s, Value) + x.value
    decreases |s|
  {
    if s == [] || s[|s| - 1].value >= x.value {
      SumConcat(s, [x], Value);
    } else {
      var init, last := s[..|s| - 1], s[|s| - 1];
      SumInsert(init, x);
      SumConcat(Insert(init, x), [last], Value);
      assert s == init + [last];
      SumConcat(init, [last], Value);
    }
  }

  lemma {:induction false} SumSortByValue(xs: seq<Slice>)
    ensures Sum(SortByValue(xs), Value) == Sum(xs, Value)
    decreases |xs|
  {
    if xs != [] {
      var init, last := xs[..|xs| - 1], xs[|xs| - 1];
      SumSortByValue(init);
      SumInsert(SortByValue(init), last);
      assert xs == init + [last];
      SumConcat(init, [last], Value);
    }
  }

  /** Every breakdown entry is a selected category with a positive total,
      carrying that category's expense sum. */
  lemma BreakdownEntry(ts: seq<Transaction>, cs: seq<Category>, selected: seq<string>, s: Slice)
    requires s in Breakdown(ts, cs, selected)
    ensures s.value > 0 && s.id in selected
    ensures exists c :: c in cs && s == SliceOf(ts, c)
  {
    var sc := SelectedCategories(cs, selected);
    var all := Slices(ts, sc);
    var kept := Filter(all, Positive);
    assert s in multiset(Breakdown(ts, cs, selected));
    assert s in multiset(kept);
    FilterMembership(all, Positive, s);
    var i :| 0 <= i < |all| && all[i] == s;
    FilterMembership(cs, (c: Category) => c.id in selected, sc[i]);
    assert sc[i] in sc;
  }

  /** Every selected category with a positive expense sum has an entry. */
  lemma BreakdownComplete(ts: seq<Transaction>, cs: seq<Category>, selected: seq<string>, c: Category)
    requires c in cs && c.id in selected
    requires BudgetAlerts.CategoryExpenses(ts, c.id) > 0
    ensures SliceOf(ts, c) in Breakdown(ts, cs, selected)
  {
    var sc := SelectedCategories(cs, selected);
    var all := Slices(ts, sc);
    var kept := Filter(all, Positive);
    FilterMembership(cs, (c: Category) => c.id in selected, c);
    var i :| 0 <= i < |sc| && sc[i] == c;
    assert all[i] == SliceOf(ts, c);
    FilterMembership(all, Positive, SliceOf(ts, c));
    assert SliceOf(ts, c) in multiset(kept);
    assert SliceOf(ts, c) in multiset(Breakdown(ts, cs, selected));
  }

  /** Entries with non-negative values: dropping the zero ones keeps the sum. */
  lemma {:induction false} DropZeros(xs: seq<Slice>)
    requires forall i :: 0 <= i < |xs| ==> xs[i].value >= 0
    ensures Sum(Filter(xs, Positive), Value) == Sum(xs, Value)
    decreases |xs|
  {
    if xs != [] {
      DropZeros(xs[1..]);
      SumConcat(if Positive(xs[0]) then [xs[0]] else [], Filter(xs[1..], Positive), Value);
    }
  }

  function CategorySpend(ts: seq<Transaction>): Category -> int
  {
    (c: Category) => BudgetAlerts.CategoryExpenses(ts, c.id)
  }

  lemma {:induction false} SumSlices(ts: seq<Transaction>, sc: seq<Category>)
    ensures Sum(Slices(ts, sc), Value) == Sum(sc, CategorySpend(ts))
    decreases |sc|
  {
    if sc != [] {
      assert Slices(ts, sc)[1..] == Slices(ts, sc[1..]);
      SumSlices(ts, sc[1..]);
    }
  }

  /** With positive transaction amounts, `totalExpense` is the all-time
      expense spend of the selected categories, whatever their order. */
  lemma TotalIsSelectedSpend(ts: seq<Transaction>, cs: seq<Category>, selected: seq<string>)
    requires forall i :: 0 <= i < |ts| ==> ts[i].amount > 0
    ensures TotalExpense(ts, cs, selected) == Sum(SelectedCategories(cs, selected), CategorySpend(ts))
  {
    var sc := SelectedCategories(cs, selected);
    var all := Slices(ts, sc);
    forall i | 0 <= i < |all| ensures all[i].value >= 0 {
      BudgetAlerts.CategoryExpensesNonNegative(ts, sc[i].id);
    }
    SumSortByValue(Filter(all, Positive));
    DropZeros(all);
    SumSlices(ts, sc);
  }

  // ---- the monthly series ----

  /** `Array.from({ length: n }, (_, i) => subMonths(now, i)).reverse()`,
      as month labels. */
  function Months(now: CalendarDate, n: nat): seq<YearMonth>
  {
    Reverse(seq(n, i => SubMonths(MonthOf(now), i)))
  }

  /** `n` labels, consecutive months, oldest first, the last one this month. */
  lemma MonthsSpec(now: CalendarDate, n: nat)
    ensures |Months(now, n)| == n
    ensures forall i :: 0 <= i < n ==>
      1 <= Months(now, n)[i].month <= 12 &&
      MonthIndex(Months(now, n)[i]) == MonthIndex(MonthOf(now)) - (n - 1 - i)
    ensures n > 0 ==> Months(now, n)[n - 1] == MonthOf(now)
  {
    var back := seq(n, i => SubMonths(MonthOf(now), i));
    forall i | 0 <= i < n
      ensures 1 <= Months(now, n)[i].month <= 12 &&
              MonthIndex(Months(now, n)[i]) == MonthIndex(MonthOf(now)) - (n - 1 - i)
    {
      ReverseAt(back, i);
    }
    if n > 0 {
      MonthIndexInjective(Months(now, n)[n - 1], MonthOf(now));
    }
  }

  predicate IsExpenseIn(t: Transaction, categoryId: string, ym: YearMonth)
  {
    BudgetAlerts.IsExpenseOf(t, categoryId) && MonthOf(t.date) == ym
  }

  /** The expense sum of one category within one month. */
  function MonthlyExpense(ts: seq<Transaction>, categoryId: string, ym: YearMonth): int
  {
    Sum(Filter(ts, (t: Transaction) => IsExpenseIn(t, categoryId, ym)), Amount)
  }

  /** The reduce over the selected categories: each one writes its total under
      its name, a later category overwriting an earlier one of the same name. */
  function Totals(ts: seq<Transaction>, sc: seq<Category>, ym: YearMonth): map<string, int>
    decreases |sc|
  {
    if sc == [] then map[]
    else
      var c := sc[|sc| - 1];
      Totals(ts, sc[..|sc| - 1], ym)[c.name := MonthlyExpense(ts, c.id, ym)]
  }

  /** One data point of the series: its month label and the category totals.
      `month` is written after each category, so a category called "month"
      is shadowed by the label. */
  datatype Bucket = Bucket(month: YearMonth, totals: map<string, int>)

  function BucketOf(ts: seq<Transaction>, sc: seq<Category>, ym: YearMonth): Bucket
  {
    Bucket(ym, Totals(ts, sc, ym) - {"month"})
  }

  function MonthlyData(ts: seq<Transaction>, cs: seq<Category>, selected: seq<string>,
                       now: CalendarDate, n: nat): seq<Bucket>
  {
    var sc := SelectedCategories(cs, selected);
    var months := Months(now, n);
    seq(|months|, i requires 0 <= i < |months| => BucketOf(ts, sc, months[i]))
  }

  /** The keys written are the names of the categories reduced over. */
  lemma {:induction false} TotalsKeys(ts: seq<Transaction>, sc: seq<Category>, ym: YearMonth)
    ensures Totals(ts, sc, ym).Keys == set c | c in sc :: c.name
    decreases |sc|
  {
    if sc != [] {
      var init := sc[..|sc| - 1];
      TotalsKeys(ts, init, ym);
      assert sc == init + [sc[|sc| - 1]];
      assert (set c | c in sc :: c.name) == (set c | c in init :: c.name) + {sc[|sc| - 1].name};
    }
  }

  /** The key of a category holds its monthly sum unless a later category
      has the same name. */
  lemma {:induction false} TotalsAt(ts: seq<Transaction>, sc: seq<Category>, ym: YearMonth, k: nat)
    requires k < |sc|
    requires forall j :: k < j < |sc| ==> sc[j].name != sc[k].name
    ensures sc[k].name in Totals(ts, sc, ym)
    ensures Totals(ts, sc, ym)[sc[k].name] == MonthlyExpense(ts, sc[k].id, ym)
    decreases |sc|
  {
    if k < |sc| - 1 {
      var init := sc[..|sc| - 1];
      assert init[k] == sc[k];
      TotalsAt(ts, init, ym, k);
    }
  }

  /** Each bucket of the series is labelled with its month and has one key per
      selected category name other than "month" (zero totals included), holding
      that category's expense sum for the month. */
  lemma MonthlyDataSpec(ts: seq<Transaction>, cs: seq<Category>, selected: seq<string>,
                        now: CalendarDate, n: nat, i: nat)
    requires i < n
    ensures |MonthlyData(ts, cs, selected, now, n)| == n
    ensures var b := MonthlyData(ts, cs, selected, now, n)[i];
      b.month == Months(now, n)[i] &&
      b.totals.Keys == (set c | c in SelectedCategories(cs, selected) :: c.name) - {"month"}
    ensures var b := MonthlyData(ts, cs, selected, now, n)[i];
      var sc := SelectedCategories(cs, selected);
      forall k :: 0 <= k < |sc| && sc[k].name != "month" &&
                  (forall j :: k < j < |sc| ==> sc[j].name != sc[k].name) ==>
        b.totals[sc[k].name] == MonthlyExpense(ts, sc[k].id, b.month)
  {
    MonthsSpec(now, n);
    var sc := SelectedCategories(cs, selected);
    var ym := Months(now, n)[i];
    TotalsKeys(ts, sc, ym);
    forall k | 0 <= k < |sc| && sc[k].name != "month" &&
               (forall j :: k < j < |sc| ==> sc[j].name != sc[k].name)
      ensures (Totals(ts, sc, ym) - {"month"})[sc[k].name] == MonthlyExpense(ts, sc[k].id, ym)
    {
      TotalsAt(ts, sc, ym, k);
    }
  }

  // ---- the initial selection ----

  /** `categories.slice(0, 5).map(c => c.id)`. */
  function InitialSelection(cs: seq<Category>): (r: seq<string>)
    ensures |r| == if |cs| < 5 then |cs| else 5
    ensures forall i :: 0 <= i < |r| ==> r[i] == cs[i].id
  {
    var n := if |cs| < 5 then |cs| else 5;
    seq(n, i requires 0 <= i < n => cs[i].id)
  }

  /** With the default categories the first five seeds are selected. */
  lemma DefaultSelection()
    ensures InitialSelection(Store.DefaultCategories()) == ["1", "2", "3", "4", "5"]
  {
  }
}
