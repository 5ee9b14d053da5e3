/** The state engine of src/store.ts: one record of transactions, categories,
    budgets and theme, and the operations that replace those fields.

    Each operation is specified by a pure function on the collection it
    replaces (the source builds every new collection with `filter`, `map` or
    spread); the class `ExpenseStore` holds the state and its methods assign
    those functions' results. Fresh ids (`crypto.randomUUID()`) are supplied
    by the caller with the precondition that they are not in use. */
module Store {
  import opened Seqs
  import opened Dates
  import opened Types
  import opened Recurrence

  /** The eight seed categories present at first run. */
  function DefaultCategories(): (cs: seq<Category>)
    ensures |cs| == 8
  {
    [ Category("1", "Food", "utensils", "#FF6B6B"),
      Category("2", "Transport", "car", "#4ECDC4"),
      Category("3", "Bills", "file-text", "#45B7D1"),
      Category("4", "Shopping", "shopping-bag", "#96CEB4"),
      Category("5", "Entertainment", "tv", "#FFEEAD"),
      Category("6", "Health", "heart", "#D4A5A5"),
      Category("7", "Salary", "wallet", "#9ACD32"),
      Category("8", "Other", "more-horizontal", "#A9A9A9") ]
  }

  // ---- identity ----

  function TransactionIds(ts: seq<Transaction>): set<string>
  {
    set t | t in ts :: t.id
  }

  function CategoryIds(cs: seq<Category>): set<string>
  {
    set c | c in cs :: c.id
  }

  predicate UniqueTransactionIds(ts: seq<Transaction>)
  {
    forall i, j :: 0 <= i < j < |ts| ==> ts[i].id != ts[j].id
  }

  predicate UniqueCategoryIds(cs: seq<Category>)
  {
    forall i, j :: 0 <= i < j < |cs| ==> cs[i].id != cs[j].id
  }

  /** At most one budget per category. */
  predicate OneBudgetPerCategory(bs: seq<Budget>)
  {
    forall i, j :: 0 <= i < j < |bs| ==> bs[i].categoryId != bs[j].categoryId
  }

  /** The seed categories have distinct ids. */
  lemma DefaultCategoriesUnique()
    ensures UniqueCategoryIds(DefaultCategories())
  {
  }

  // ---- generic replace-by-match (`xs.map(x => match(x) ? y : x)`) ----

  function ReplaceWhere<T>(xs: seq<T>, hit: T -> bool, y: T): (r: seq<T>)
    ensures |r| == |xs|
  {
    seq(|xs|, i requires 0 <= i < |xs| => if hit(xs[i]) then y else xs[i])
  }

  /** Replacement keeps length and order, changes exactly the matching
      positions, and is the identity when nothing matches. */
  lemma ReplaceWhereSpec<T>(xs: seq<T>, hit: T -> bool, y: T)
    ensures forall i :: 0 <= i < |xs| && hit(xs[i]) ==> ReplaceWhere(xs, hit, y)[i] == y
    ensures forall i :: 0 <= i < |xs| && !hit(xs[i]) ==> ReplaceWhere(xs, hit, y)[i] == xs[i]
    ensures (forall i :: 0 <= i < |xs| ==> !hit(xs[i])) ==> ReplaceWhere(xs, hit, y) == xs
  {
  }

  // ---- transactions ----

  /** The record `addTransaction` stores: the input with a fresh id and, when
      the input is recurring with an interval, the next occurrence one
      interval after its date; otherwise the input's fields as given. */
  function Stamp(input: Transaction, id: string): (t: Transaction)
    ensures t.id == id
    ensures t.(id := input.id, nextRecurringDate := input.nextRecurringDate) == input
    ensures IsRecurring(input) && input.recurringInterval.Some? ==>
              t.nextRecurringDate == Some(Advance(input.date, input.recurringInterval.value)) &&
              Less(input.date, t.nextRecurringDate.value)
    ensures !(IsRecurring(input) && input.recurringInterval.Some?) ==>
              t.nextRecurringDate == input.nextRecurringDate
  {
    if IsRecurring(input) && input.recurringInterval.Some? then
      input.(id := id, nextRecurringDate := Some(Advance(input.date, input.recurringInterval.value)))
    else
      input.(id := id)
  }

  function TransactionsAfterAdd(ts: seq<Transaction>, input: Transaction, id: string): seq<Transaction>
  {
    ts + [Stamp(input, id)]
  }

  function TransactionsAfterDelete(ts: seq<Transaction>, id: string): seq<Transaction>
  {
    Filter(ts, (t: Transaction) => t.id != id)
  }

  function TransactionsAfterUpdate(ts: seq<Transaction>, t: Transaction): seq<Transaction>
  {
    ReplaceWhere(ts, (u: Transaction) => u.id == t.id, t)
  }

  /** Adding grows the list by one record at the end, with the fresh id, and
      keeps unique ids unique. */
  lemma AddTransactionSpec(ts: seq<Transaction>, input: Transaction, id: string)
    requires id !in TransactionIds(ts)
    ensures var r := TransactionsAfterAdd(ts, input, id);
      |r| == |ts| + 1 && r[..|ts|] == ts && r[|ts|] == Stamp(input, id) &&
      TransactionIds(r) == TransactionIds(ts) + {id} &&
      (UniqueTransactionIds(ts) ==> UniqueTransactionIds(r))
  {
    var r := TransactionsAfterAdd(ts, input, id);
    assert r[..|ts|] == ts;
    forall i | 0 <= i < |ts| ensures r[i].id != id {
      assert ts[i] in ts;
    }
    assert forall t :: t in r <==> t in ts || t == Stamp(input, id);
  }

  /** Deleting what was just added restores the list. */
  lemma DeleteUndoesAdd(ts: seq<Transaction>, input: Transaction, id: string)
    requires id !in TransactionIds(ts)
    ensures TransactionsAfterDelete(TransactionsAfterAdd(ts, input, id), id) == ts
  {
    var p := (t: Transaction) => t.id != id;
    forall i | 0 <= i < |ts| ensures p(ts[i]) {
      assert ts[i] in ts;
    }
    FilterAll(ts, p);
    FilterConcat(ts, [Stamp(input, id)], p);
  }

  /** Deleting removes exactly the records with that id and keeps the rest
      in order; an absent id changes nothing, and deleting twice is deleting
      once. */
  lemma DeleteTransactionSpec(ts: seq<Transaction>, id: string)
    ensures forall t :: t in TransactionsAfterDelete(ts, id) <==> t in ts && t.id != id
    ensures IsSubsequence(TransactionsAfterDelete(ts, id), ts)
    ensures id !in TransactionIds(ts) ==> TransactionsAfterDelete(ts, id) == ts
    ensures TransactionsAfterDelete(TransactionsAfterDelete(ts, id), id) == TransactionsAfterDelete(ts, id)
  {
    var p := (t: Transaction) => t.id != id;
    forall t ensures t in Filter(ts, p) <==> t in ts && p(t) {
      FilterMembership(ts, p, t);
    }
    FilterIsSubsequence(ts, p);
    if id !in TransactionIds(ts) {
      forall i | 0 <= i < |ts| ensures p(ts[i]) {
        assert ts[i] in ts;
      }
      FilterAll(ts, p);
    }
    var r := Filter(ts, p);
    forall i | 0 <= i < |r| ensures p(r[i]) {
      assert r[i] in r;
    }
    FilterAll(r, p);
  }

  /** Updating keeps length and order, replaces only the records with the
      update's id, and changes nothing when no id matches. */
  lemma UpdateTransactionSpec(ts: seq<Transaction>, t: Transaction)
    ensures |TransactionsAfterUpdate(ts, t)| == |ts|
    ensures forall i :: 0 <= i < |ts| ==>
      TransactionsAfterUpdate(ts, t)[i] == (if ts[i].id == t.id then t else ts[i])
    ensures t.id !in TransactionIds(ts) ==> TransactionsAfterUpdate(ts, t) == ts
    ensures TransactionIds(TransactionsAfterUpdate(ts, t)) <= TransactionIds(ts)
    ensures UniqueTransactionIds(ts) ==> UniqueTransactionIds(TransactionsAfterUpdate(ts, t))
  {
    var hit := (u: Transaction) => u.id == t.id;
    ReplaceWhereSpec(ts, hit, t);
    var r := TransactionsAfterUpdate(ts, t);
    forall i | 0 <= i < |ts| ensures r[i].id == ts[i].id {
    }
    if t.id !in TransactionIds(ts) {
      forall i | 0 <= i < |ts| ensures !hit(ts[i]) {
        assert ts[i] in ts;
      }
    }
    forall x | x in TransactionIds(r) ensures x in TransactionIds(ts) {
      var u :| u in r && u.id == x;
      var i :| 0 <= i < |r| && r[i] == u;
      assert ts[i] in ts;
    }
  }

  // ---- budgets ----

  /** `setBudget`: drop any budget of the same category, append the new one. */
  function BudgetsAfterSet(bs: seq<Budget>, b: Budget): seq<Budget>
  {
    Filter(bs, (x: Budget) => x.categoryId != b.categoryId) + [b]
  }

  /** After setting, the new budget is the last one and the only one for its
      category; the other categories' budgets keep their relative order; and
      at most one budget per category is kept. */
  lemma SetBudgetSpec(bs: seq<Budget>, b: Budget)
    ensures var r := BudgetsAfterSet(bs, b);
      |r| >= 1 && r[|r| - 1] == b &&
      (forall i :: 0 <= i < |r| - 1 ==> r[i].categoryId != b.categoryId) &&
      r[..|r| - 1] == Filter(bs, (x: Budget) => x.categoryId != b.categoryId) &&
      IsSubsequence(r[..|r| - 1], bs) &&
      (forall x :: x in bs && x.categoryId != b.categoryId ==> x in r) &&
      (OneBudgetPerCategory(bs) ==> OneBudgetPerCategory(r))
  {
    var p := (x: Budget) => x.categoryId != b.categoryId;
    var f := Filter(bs, p);
    var r := BudgetsAfterSet(bs, b);
    assert r[..|r| - 1] == f;
    forall i | 0 <= i < |r| - 1 ensures r[i].categoryId != b.categoryId {
      assert r[i] in f;
    }
    FilterIsSubsequence(bs, p);
    forall x | x in bs && x.categoryId != b.categoryId ensures x in r {
      FilterMembership(bs, p, x);
    }
    if OneBudgetPerCategory(bs) {
      FilterKeepsDistinctKeys(bs, p);
    }
  }

  lemma {:induction false} FilterKeepsDistinctKeys(bs: seq<Budget>, p: Budget -> bool)
    requires OneBudgetPerCategory(bs)
    ensures OneBudgetPerCategory(Filter(bs, p))
    decreases |bs|
  {
    if bs != [] {
      var tail := bs[1..];
      FilterKeepsDistinctKeys(tail, p);
      var ft := Filter(tail, p);
      if p(bs[0]) {
        forall k | 0 <= k < |ft| ensures ft[k].categoryId != bs[0].categoryId {
          assert ft[k] in ft;
          var m :| 0 <= m < |tail| && tail[m] == ft[k];
          assert bs[m + 1] == ft[k];
        }
        assert Filter(bs, p) == [bs[0]] + ft;
      }
    }
  }

  // ---- theme ----

  function Toggled(theme: Theme): (r: Theme)
    ensures r != theme
  {
    if theme == Light then Dark else Light
  }

  lemma ToggleTwice(theme: Theme)
    ensures Toggled(Toggled(theme)) == theme
  {
  }

  // ---- categories ----

  function CategoriesAfterAdd(cs: seq<Category>, input: Category, id: string): seq<Category>
  {
    cs + [input.(id := id)]
  }

  function CategoriesAfterUpdate(cs: seq<Category>, c: Category): seq<Category>
  {
    ReplaceWhere(cs, (x: Category) => x.id == c.id, c)
  }

  /** A new category goes last with the fresh id; category ids stay unique. */
  lemma AddCategorySpec(cs: seq<Category>, input: Category, id: string)
    requires id !in CategoryIds(cs)
    ensures var r := CategoriesAfterAdd(cs, input, id);
      |r| == |cs| + 1 && r[..|cs|] == cs && r[|cs|].id == id &&
      r[|cs|].(id := input.id) == input &&
      (UniqueCategoryIds(cs) ==> UniqueCategoryIds(r))
  {
    var r := CategoriesAfterAdd(cs, input, id);
    assert r[..|cs|] == cs;
    forall i | 0 <= i < |cs| ensures r[i].id != id {
      assert cs[i] in cs;
    }
  }

  /** Updating a category keeps length and order, replaces only the entries
      with the update's id, and changes nothing when no id matches. */
  lemma UpdateCategorySpec(cs: seq<Category>, c: Category)
    ensures |CategoriesAfterUpdate(cs, c)| == |cs|
    ensures forall i :: 0 <= i < |cs| ==>
      CategoriesAfterUpdate(cs, c)[i] == (if cs[i].id == c.id then c else cs[i])
    ensures c.id !in CategoryIds(cs) ==> CategoriesAfterUpdate(cs, c) == cs
    ensures UniqueCategoryIds(cs) ==> UniqueCategoryIds(CategoriesAfterUpdate(cs, c))
  {
    var hit := (x: Category) => x.id == c.id;
    ReplaceWhereSpec(cs, hit, c);
    if c.id !in CategoryIds(cs) {
      forall i | 0 <= i < |cs| ensures !hit(cs[i]) {
        assert cs[i] in cs;
      }
    }
  }

  /** The cascade of `deleteCategory`: the three filtered collections. */
  datatype Cascade = Cascade(categories: seq<Category>, transactions: seq<Transaction>, budgets: seq<Budget>)

  function AfterDeleteCategory(cs: seq<Category>, ts: seq<Transaction>, bs: seq<Budget>, id: string): Cascade
  {
    Cascade(
      Filter(cs, (c: Category) => c.id != id),
      Filter(ts, (t: Transaction) => t.category != id),
      Filter(bs, (b: Budget) => b.categoryId != id))
  }

  /** After deleting a category nothing refers to it any more, and every
      other entry survives, in order. */
  lemma DeleteCategorySpec(cs: seq<Category>, ts: seq<Transaction>, bs: seq<Budget>, id: string)
    ensures var r := AfterDeleteCategory(cs, ts, bs, id);
      (forall c :: c in r.categories <==> c in cs && c.id != id) &&
      (forall t :: t in r.transactions <==> t in ts && t.category != id) &&
      (forall b :: b in r.budgets <==> b in bs && b.categoryId != id) &&
      IsSubsequence(r.categories, cs) && IsSubsequence(r.transactions, ts) &&
      IsSubsequence(r.budgets, bs)
  {
    var pc := (c: Category) => c.id != id;
    var pt := (t: Transaction) => t.category != id;
    var pb := (b: Budget) => b.categoryId != id;
    forall c ensures c in Filter(cs, pc) <==> c in cs && pc(c) { FilterMembership(cs, pc, c); }
    forall t ensures t in Filter(ts, pt) <==> t in ts && pt(t) { FilterMembership(ts, pt, t); }
    forall b ensures b in Filter(bs, pb) <==> b in bs && pb(b) { FilterMembership(bs, pb, b); }
    FilterIsSubsequence(cs, pc);
    FilterIsSubsequence(ts, pt);
    FilterIsSubsequence(bs, pb);
  }

  // ---- the recurrence sweep ----

  /** A template is due when it is recurring and its next date is on or
      before today. */
  predicate IsDue(t: Transaction, today: CalendarDate)
  {
    IsRecurring(t) && t.nextRecurringDate.Some? && LessEq(t.nextRecurringDate.value, today)
  }

  /** The occurrence materialised from a due template: a copy with a fresh id,
      dated at the template's next date, whose own next date is one interval
      later. */
  function Materialize(t: Transaction, id: string): (c: Transaction)
    requires t.nextRecurringDate.Some?
    ensures c.id == id && c.date == t.nextRecurringDate.value
    ensures c.nextRecurringDate == Some(NextRecurringDate(t.nextRecurringDate.value, t.recurringInterval))
    ensures c.(id := t.id, date := t.date, nextRecurringDate := t.nextRecurringDate) == t
  {
    var next := t.nextRecurringDate.value;
    t.(id := id, date := next, nextRecurringDate := Some(NextRecurringDate(next, t.recurringInterval)))
  }

  /** The copies one sweep appends: template `ts[k]`, when due, yields one copy
      with id `ids[k]`, in the templates' order. */
  function DueCopies(ts: seq<Transaction>, ids: seq<string>, today: CalendarDate): (r: seq<Transaction>)
    requires |ids| == |ts|
    ensures |r| <= |ts|
    decreases |ts|
  {
    if ts == [] then []
    else
      var n := |ts| - 1;
      DueCopies(ts[..n], ids[..n], today) + (if IsDue(ts[n], today) then [Materialize(ts[n], ids[n])] else [])
  }

  /** Number of due templates. */
  function CountDue(ts: seq<Transaction>, today: CalendarDate): nat
    decreases |ts|
  {
    if ts == [] then 0
    else CountDue(ts[..|ts| - 1], today) + (if IsDue(ts[|ts| - 1], today) then 1 else 0)
  }

  /** One copy per due template, each one a materialisation of a due template
      with the id reserved for it. */
  lemma {:induction false} DueCopiesSpec(ts: seq<Transaction>, ids: seq<string>, today: CalendarDate)
    requires |ids| == |ts|
    ensures |DueCopies(ts, ids, today)| == CountDue(ts, today)
    ensures forall c :: c in DueCopies(ts, ids, today) ==>
      exists k :: 0 <= k < |ts| && IsDue(ts[k], today) && c == Materialize(ts[k], ids[k])
    decreases |ts|
  {
    if ts != [] {
      var n := |ts| - 1;
      DueCopiesSpec(ts[..n], ids[..n], today);
      forall c | c in DueCopies(ts, ids, today)
        ensures exists k :: 0 <= k < |ts| && IsDue(ts[k], today) && c == Materialize(ts[k], ids[k])
      {
        if c in DueCopies(ts[..n], ids[..n], today) {
          var k :| 0 <= k < n && IsDue(ts[..n][k], today) && c == Materialize(ts[..n][k], ids[..n][k]);
          assert ts[k] == ts[..n][k] && ids[k] == ids[..n][k];
        } else {
          assert IsDue(ts[n], today) && c == Materialize(ts[n], ids[n]);
        }
      }
    }
  }

  /** Positions of the due templates, in increasing order: an independent
      account of which templates a sweep copies. */
  function DueIndices(ts: seq<Transaction>, today: CalendarDate): (r: seq<nat>)
    ensures forall j :: 0 <= j < |r| ==> r[j] < |ts| && IsDue(ts[r[j]], today)
    ensures forall i, j :: 0 <= i < j < |r| ==> r[i] < r[j]
    ensures forall k :: 0 <= k < |ts| && IsDue(ts[k], today) ==> k in r
    decreases |ts|
  {
    if ts == [] then []
    else
      var n := |ts| - 1;
      var r := DueIndices(ts[..n], today);
      assert forall k :: 0 <= k < n ==> ts[..n][k] == ts[k];
      r + (if IsDue(ts[n], today) then [n] else [])
  }

  /** The `j`-th copy is the materialisation of the `j`-th due template with
      that template's reserved id: the copies follow the templates' order. */
  lemma {:induction false} DueCopiesInOrder(ts: seq<Transaction>, ids: seq<string>, today: CalendarDate)
    requires |ids| == |ts|
    ensures |DueCopies(ts, ids, today)| == |DueIndices(ts, today)|
    ensures forall j :: 0 <= j < |DueIndices(ts, today)| ==>
      DueCopies(ts, ids, today)[j] == Materialize(ts[DueIndices(ts, today)[j]], ids[DueIndices(ts, today)[j]])
    decreases |ts|
  {
    if ts != [] {
      var n := |ts| - 1;
      DueCopiesInOrder(ts[..n], ids[..n], today);
      var front := DueIndices(ts[..n], today);
      forall j | 0 <= j < |front|
        ensures ts[..n][front[j]] == ts[front[j]] && ids[..n][front[j]] == ids[front[j]]
      {
      }
    }
  }

  /** When nothing is due, the sweep materialises nothing. */
  lemma {:induction false} NothingDueNoCopies(ts: seq<Transaction>, ids: seq<string>, today: CalendarDate)
    requires |ids| == |ts|
    requires forall k :: 0 <= k < |ts| ==> !IsDue(ts[k], today)
    ensures DueCopies(ts, ids, today) == []
    decreases |ts|
  {
    if ts != [] {
      var n := |ts| - 1;
      NothingDueNoCopies(ts[..n], ids[..n], today);
    }
  }

  /** A due template at position `k` is materialised. */
  lemma {:induction false} DueTemplateIsCopied(ts: seq<Transaction>, ids: seq<string>, today: CalendarDate, k: nat)
    requires |ids| == |ts| && k < |ts| && IsDue(ts[k], today)
    ensures Materialize(ts[k], ids[k]) in DueCopies(ts, ids, today)
    decreases |ts|
  {
    var n := |ts| - 1;
    if k < n {
      DueTemplateIsCopied(ts[..n], ids[..n], today, k);
    }
  }

  /** Every copy takes its id from the reserved ids, and the copies' ids are
      distinct when the reserved ids are. */
  lemma {:induction false} DueCopiesIds(ts: seq<Transaction>, ids: seq<string>, today: CalendarDate)
    requires |ids| == |ts|
    requires forall i, j :: 0 <= i < j < |ids| ==> ids[i] != ids[j]
    ensures forall c :: c in DueCopies(ts, ids, today) ==> c.id in ids
    ensures UniqueTransactionIds(DueCopies(ts, ids, today))
    decreases |ts|
  {
    if ts != [] {
      var n := |ts| - 1;
      var prefix := DueCopies(ts[..n], ids[..n], today);
      DueCopiesIds(ts[..n], ids[..n], today);
      forall c | c in prefix ensures c.id in ids && c.id != ids[n] {
        var m :| 0 <= m < n && ids[..n][m] == c.id;
      }
      var r := DueCopies(ts, ids, today);
      if IsDue(ts[n], today) {
        forall i | 0 <= i < |prefix| ensures prefix[i].id != ids[n] {
          assert prefix[i] in prefix;
        }
        assert r == prefix + [Materialize(ts[n], ids[n])];
      } else {
        assert r == prefix;
      }
    }
  }

  /** The sweep never changes a template, so a template due today is still
      due after the sweep, and sweeping again on the same day materialises it
      again. */
  lemma SweepRepeatsDueTemplates(ts: seq<Transaction>, ids: seq<string>, ids2: seq<string>, today: CalendarDate, k: nat)
    requires |ids| == |ts| && k < |ts| && IsDue(ts[k], today)
    requires |ids2| == |ts| + |DueCopies(ts, ids, today)|
    ensures var after := ts + DueCopies(ts, ids, today);
      after[k] == ts[k] && IsDue(after[k], today) &&
      Materialize(ts[k], ids2[k]) in DueCopies(after, ids2, today)
  {
    var after := ts + DueCopies(ts, ids, today);
    assert after[k] == ts[k];
    DueTemplateIsCopied(after, ids2, today, k);
  }

  /** The store's invariant: ids are unique and budgets are keyed by category. */
  predicate ValidState(ts: seq<Transaction>, cs: seq<Category>, bs: seq<Budget>)
  {
    UniqueTransactionIds(ts) && UniqueCategoryIds(cs) && OneBudgetPerCategory(bs)
  }

  class ExpenseStore {
    var transactions: seq<Transaction>
    var categories: seq<Category>
    var budgets: seq<Budget>
    var theme: Theme

    predicate Valid()
      reads this
    {
      ValidState(transactions, categories, budgets)
    }

    /** The state at first run: no transactions or budgets, the seed
        categories, the light theme. */
    constructor ()
      ensures transactions == [] && categories == DefaultCategories()
      ensures budgets == [] && theme == Light
      ensures Valid()
    {
      transactions := [];
      categories := DefaultCategories();
      budgets := [];
      theme := Light;
      DefaultCategoriesUnique();
    }

    method AddTransaction(input: Transaction, id: string)
      requires id !in TransactionIds(transactions)
      modifies this
      ensures transactions == old(transactions) + [Stamp(input, id)]
      ensures categories == old(categories) && budgets == old(budgets) && theme == old(theme)
      ensures old(Valid()) ==> Valid()
    {
      AddTransactionSpec(transactions, input, id);
      transactions := TransactionsAfterAdd(transactions, input, id);
    }

    method DeleteTransaction(id: string)
      modifies this
      ensures transactions == TransactionsAfterDelete(old(transactions), id)
      ensures categories == old(categories) && budgets == old(budgets) && theme == old(theme)
      ensures old(Valid()) ==> Valid()
    {
      var p := (t: Transaction) => t.id != id;
      FilterIsSubsequence(transactions, p);
      SubsequenceKeepsUniqueIds(Filter(transactions, p), transactions);
      transactions := TransactionsAfterDelete(transactions, id);
    }

    method UpdateTransaction(t: Transaction)
      modifies this
      ensures transactions == TransactionsAfterUpdate(old(transactions), t)
      ensures categories == old(categories) && budgets == old(budgets) && theme == old(theme)
      ensures old(Valid()) ==> Valid()
    {
      UpdateTransactionSpec(transactions, t);
      transactions := TransactionsAfterUpdate(transactions, t);
    }

    /** No validation of the limit happens here. */
    method SetBudget(b: Budget)
      modifies this
      ensures budgets == BudgetsAfterSet(old(budgets), b)
      ensures transactions == old(transactions) && categories == old(categories) && theme == old(theme)
      ensures old(Valid()) ==> Valid()
    {
      SetBudgetSpec(budgets, b);
      budgets := BudgetsAfterSet(budgets, b);
    }

    method ToggleTheme()
      modifies this
      ensures theme == Toggled(old(theme))
      ensures transactions == old(transactions) && categories == old(categories) && budgets == old(budgets)
    {
      theme := Toggled(theme);
    }

    method AddCategory(input: Category, id: string)
      requires id !in CategoryIds(categories)
      modifies this
      ensures categories == CategoriesAfterAdd(old(categories), input, id)
      ensures transactions == old(transactions) && budgets == old(budgets) && theme == old(theme)
      ensures old(Valid()) ==> Valid()
    {
      AddCategorySpec(categories, input, id);
      categories := CategoriesAfterAdd(categories, input, id);
    }

    method UpdateCategory(c: Category)
      modifies this
      ensures categories == CategoriesAfterUpdate(old(categories), c)
      ensures transactions == old(transactions) && budgets == old(budgets) && theme == old(theme)
      ensures old(Valid()) ==> Valid()
    {
      UpdateCategorySpec(categories, c);
      categories := CategoriesAfterUpdate(categories, c);
    }

    /** Removes the category, its transactions and its budget in one update. */
    method DeleteCategory(id: string)
      modifies this
      ensures var r := AfterDeleteCategory(old(categories), old(transactions), old(budgets), id);
        categories == r.categories && transactions == r.transactions && budgets == r.budgets
      ensures theme == old(theme)
      ensures old(Valid()) ==> Valid()
    {
      var r := AfterDeleteCategory(categories, transactions, budgets, id);
      DeleteCategorySpec(categories, transactions, budgets, id);
      SubsequenceKeepsUniqueIds(r.transactions, transactions);
      SubsequenceKeepsUniqueCategoryIds(r.categories, categories);
      SubsequenceKeepsOneBudget(r.budgets, budgets);
      categories, transactions, budgets := r.categories, r.transactions, r.budgets;
    }

    /** Appends, in the templates' order, one copy of every due template;
        `freshIds[k]` is the id reserved for the copy of template `k`. */
    method ProcessRecurringTransactions(today: CalendarDate, freshIds: seq<string>)
      requires |freshIds| == |transactions|
      requires forall i, j :: 0 <= i < j < |freshIds| ==> freshIds[i] != freshIds[j]
      requires forall i :: 0 <= i < |freshIds| ==> freshIds[i] !in TransactionIds(transactions)
      modifies this
      ensures transactions == old(transactions) + DueCopies(old(transactions), freshIds, today)
      ensures categories == old(categories) && budgets == old(budgets) && theme == old(theme)
      ensures old(Valid()) ==> Valid()
    {
      var ts := transactions;
      var newTransactions: seq<Transaction> := [];
      var i := 0;
      while i < |ts|
        invariant 0 <= i <= |ts|
        invariant newTransactions == DueCopies(ts[..i], freshIds[..i], today)
      {
        var t := ts[i];
        assert ts[..i + 1][..i] == ts[..i] && freshIds[..i + 1][..i] == freshIds[..i];
        if IsDue(t, today) {
          newTransactions := newTransactions + [Materialize(t, freshIds[i])];
        }
        i := i + 1;
      }
      assert ts[..i] == ts && freshIds[..i] == freshIds;
      if |newTransactions| > 0 {
        SweepKeepsUniqueIds(ts, freshIds, today);
        transactions := transactions + newTransactions;
      } else {
        assert ts + newTransactions == ts;
      }
    }
  }

  lemma SubsequenceKeepsUniqueIds(a: seq<Transaction>, b: seq<Transaction>)
    requires IsSubsequence(a, b)
    ensures UniqueTransactionIds(b) ==> UniqueTransactionIds(a)
  {
    if UniqueTransactionIds(b) {
      var idsA := seq(|a|, i requires 0 <= i < |a| => a[i].id);
      var idsB := seq(|b|, i requires 0 <= i < |b| => b[i].id);
      MapSubsequence(a, b, (t: Transaction) => t.id);
      assert idsA == MapSeq(a, (t: Transaction) => t.id);
      assert idsB == MapSeq(b, (t: Transaction) => t.id);
      SubsequenceKeepsDistinct(idsA, idsB);
    }
  }

  lemma SubsequenceKeepsUniqueCategoryIds(a: seq<Category>, b: seq<Category>)
    requires IsSubsequence(a, b)
    ensures UniqueCategoryIds(b) ==> UniqueCategoryIds(a)
  {
    if UniqueCategoryIds(b) {
      MapSubsequence(a, b, (c: Category) => c.id);
      SubsequenceKeepsDistinct(MapSeq(a, (c: Category) => c.id), MapSeq(b, (c: Category) => c.id));
    }
  }

  lemma SubsequenceKeepsOneBudget(a: seq<Budget>, b: seq<Budget>)
    requires IsSubsequence(a, b)
    ensures OneBudgetPerCategory(b) ==> OneBudgetPerCategory(a)
  {
    if OneBudgetPerCategory(b) {
      MapSubsequence(a, b, (x: Budget) => x.categoryId);
      SubsequenceKeepsDistinct(MapSeq(a, (x: Budget) => x.categoryId), MapSeq(b, (x: Budget) => x.categoryId));
    }
  }

  function MapSeq<T, U>(xs: seq<T>, f: T -> U): (r: seq<U>)
    ensures |r| == |xs| && forall i :: 0 <= i < |xs| ==> r[i] == f(xs[i])
  {
    seq(|xs|, i requires 0 <= i < |xs| => f(xs[i]))
  }

  lemma {:induction false} MapSubsequence<T, U>(a: seq<T>, b: seq<T>, f: T -> U)
    requires IsSubsequence(a, b)
    ensures IsSubsequence(MapSeq(a, f), MapSeq(b, f))
    decreases |b|
  {
    if a != [] {
      var ma, mb := MapSeq(a, f), MapSeq(b, f);
      assert MapSeq(b[1..], f) == mb[1..];
      if a[0] == b[0] && IsSubsequence(a[1..], b[1..]) {
        MapSubsequence(a[1..], b[1..], f);
        assert MapSeq(a[1..], f) == ma[1..];
      } else {
        MapSubsequence(a, b[1..], f);
      }
    }
  }

  lemma {:induction false} SubsequenceKeepsDistinct<U>(a: seq<U>, b: seq<U>)
    requires IsSubsequence(a, b)
    requires forall i, j :: 0 <= i < j < |b| ==> b[i] != b[j]
    ensures forall i, j :: 0 <= i < j < |a| ==> a[i] != a[j]
    decreases |b|
  {
    if a != [] {
      if a[0] == b[0] && IsSubsequence(a[1..], b[1..]) {
        SubsequenceKeepsDistinct(a[1..], b[1..]);
        SubsequenceElements(a[1..], b[1..]);
        forall j | 0 < j < |a| ensures a[0] != a[j] {
          assert a[j] == a[1..][j - 1];
          assert a[j] in b[1..];
        }
      } else {
        SubsequenceKeepsDistinct(a, b[1..]);
      }
    }
  }

  lemma {:induction false} SubsequenceElements<U>(a: seq<U>, b: seq<U>)
    requires IsSubsequence(a, b)
    ensures forall x :: x in a ==> x in b
    decreases |b|
  {
    if a != [] {
      if a[0] == b[0] && IsSubsequence(a[1..], b[1..]) {
        SubsequenceElements(a[1..], b[1..]);
        assert a == [a[0]] + a[1..];
      } else {
        SubsequenceElements(a, b[1..]);
      }
    }
  }

  /** The sweep keeps transaction ids unique when the reserved ids are fresh
      and distinct. */
  lemma SweepKeepsUniqueIds(ts: seq<Transaction>, ids: seq<string>, today: CalendarDate)
    requires |ids| == |ts|
    requires forall i, j :: 0 <= i < j < |ids| ==> ids[i] != ids[j]
    requires forall i :: 0 <= i < |ids| ==> ids[i] !in TransactionIds(ts)
    ensures UniqueTransactionIds(ts) ==> UniqueTransactionIds(ts + DueCopies(ts, ids, today))
  {
    var cs := DueCopies(ts, ids, today);
    DueCopiesIds(ts, ids, today);
    var r := ts + cs;
    if UniqueTransactionIds(ts) {
      forall i, j | 0 <= i < j < |r| ensures r[i].id != r[j].id {
        if j >= |ts| && i < |ts| {
          assert r[j] in cs;
          assert ts[i] in ts;
        } else if i >= |ts| {
          assert r[i] == cs[i - |ts|] && r[j] == cs[j - |ts|];
        }
      }
    }
  }
}
