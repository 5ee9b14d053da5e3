/** The filter of src/components/TransactionList.tsx: a date-range window
    around "now", then either the global search term or the per-column
    filters. "Now" is a parameter. */
module TransactionList {
  import opened Seqs
  import opened Text
  import opened Dates
  import opened Types

  /** A closed interval of days, `{ start, end }` of `getDateRange`. */
  datatype Span = Span(start: Date, end: Date)

  predicate InSpan(d: Date, s: Span)
  {
    LessEq(s.start, d) && LessEq(d, s.end)
  }

  /** `getDateRange`: the current day, Sunday-started week or month; none for `all`. */
  function GetDateRange(range: DateRange, now: CalendarDate): (r: Option<Span>)
    ensures r.None? <==> range == All
    ensures r.Some? ==> InSpan(now, r.value)
  {
    InOwnWeek(now);
    match range
    case Day => Some(Span(now, now))
    case Week => Some(Span(StartOfWeek(now), EndOfWeek(now)))
    case Month => Some(Span(StartOfMonth(now), EndOfMonth(now)))
    case All => None
  }

  /** `categories.find(c => c.id === id)`: the first category with that id. */
  function FindCategory(cs: seq<Category>, id: string): (r: Option<Category>)
    ensures r.Some? ==> r.value in cs && r.value.id == id
    ensures r.None? <==> forall i :: 0 <= i < |cs| ==> cs[i].id != id
    ensures r.Some? ==> exists k :: 0 <= k < |cs| && cs[k] == r.value &&
                          forall j :: 0 <= j < k ==> cs[j].id != id
    decreases |cs|
  {
    if cs == [] then None
    else if cs[0].id == id then Some(cs[0])
    else
      var r := FindCategory(cs[1..], id);
      if r.Some? then
        ghost var k :| 0 <= k < |cs[1..]| && cs[1..][k] == r.value && forall j :: 0 <= j < k ==> cs[1..][j].id != id;
        assert cs[k + 1] == r.value;
        r
      else r
  }

  /** The lower-cased name of the transaction's category, '' when unresolved. */
  function CategoryLabel(cs: seq<Category>, id: string): string
  {
    match FindCategory(cs, id)
    case Some(c) => Lower(c.name)
    case None => ""
  }

  /** The date-range test; `all` keeps everything. */
  predicate InDateRange(t: Transaction, range: DateRange, now: CalendarDate)
  {
    match GetDateRange(range, now)
    case Some(span) => InSpan(t.date, span)
    case None => true
  }

  /** The global search: description, category name or amount text contains
      the lower-cased term. */
  predicate MatchesSearch(t: Transaction, cs: seq<Category>, term: string)
  {
    var needle := Lower(term);
    Contains(Lower(t.description), needle) ||
    Contains(CategoryLabel(cs, t.category), needle) ||
    Contains(IntToString(t.amount), needle)
  }

  /** The column filters, each one ignored when empty (type: when `all`). */
  predicate MatchesColumns(t: Transaction, cs: seq<Category>, f: FilterState)
  {
    (f.date != "" ==> Contains(Format(t.date), f.date)) &&
    (f.category != "" ==>
       match FindCategory(cs, t.category)
       case Some(c) => Contains(Lower(c.name), Lower(f.category))
       case None => false) &&
    (f.description != "" ==> Contains(Lower(t.description), Lower(f.description))) &&
    (f.amount != "" ==> Contains(IntToString(t.amount), f.amount)) &&
    (f.kind.OnlyType? ==> t.kind == f.kind.kind)
  }

  /** The predicate passed to `transactions.filter`. A search term returns
      early, so the column filters apply only without one. */
  predicate Keep(t: Transaction, cs: seq<Category>, range: DateRange, search: string, f: FilterState, now: CalendarDate)
  {
    InDateRange(t, range, now) &&
    if search != "" then MatchesSearch(t, cs, search) else MatchesColumns(t, cs, f)
  }

  function FilteredTransactions(ts: seq<Transaction>, cs: seq<Category>, range: DateRange,
                                search: string, f: FilterState, now: CalendarDate): seq<Transaction>
  {
    Filter(ts, (t: Transaction) => Keep(t, cs, range, search, f, now))
  }

  /** The filter state the list starts with: nothing restricted. */
  function NoFilters(): FilterState
  {
    FilterState("", "", "", "", AllTypes)
  }

  /** The list shows a subsequence of the transactions, in their order, and
      shows a transaction exactly when it passes the predicate. */
  lemma FilteredSpec(ts: seq<Transaction>, cs: seq<Category>, range: DateRange,
                     search: string, f: FilterState, now: CalendarDate)
    ensures IsSubsequence(FilteredTransactions(ts, cs, range, search, f, now), ts)
    ensures forall t :: t in FilteredTransactions(ts, cs, range, search, f, now) <==>
                        t in ts && Keep(t, cs, range, search, f, now)
  {
    var p := (t: Transaction) => Keep(t, cs, range, search, f, now);
    FilterIsSubsequence(ts, p);
    forall t ensures t in Filter(ts, p) <==> t in ts && p(t) {
      FilterMembership(ts, p, t);
    }
  }

  /** With range `all`, no search and no column filter, every transaction is
      shown. */
  lemma NoRestrictionKeepsAll(ts: seq<Transaction>, cs: seq<Category>, now: CalendarDate)
    ensures FilteredTransactions(ts, cs, All, "", NoFilters(), now) == ts
  {
    var p := (t: Transaction) => Keep(t, cs, All, "", NoFilters(), now);
    FilterAll(ts, p);
  }

  /** With a search term, the column filters have no effect at all. */
  lemma SearchIgnoresColumns(ts: seq<Transaction>, cs: seq<Category>, range: DateRange,
                             search: string, f: FilterState, g: FilterState, now: CalendarDate)
    requires search != ""
    ensures FilteredTransactions(ts, cs, range, search, f, now) ==
            FilteredTransactions(ts, cs, range, search, g, now)
  {
    FilterCongruent(ts, (t: Transaction) => Keep(t, cs, range, search, f, now),
                        (t: Transaction) => Keep(t, cs, range, search, g, now));
  }

  /** The search is case-insensitive in the term. */
  lemma SearchCaseInsensitive(t: Transaction, cs: seq<Category>, term: string)
    ensures MatchesSearch(t, cs, term) == MatchesSearch(t, cs, Lower(term))
  {
    LowerIdempotent(term);
  }

  /** An empty search term would match everything: the list tests the term's
      truthiness first, so an empty term means "no search". */
  lemma EmptyTermMatchesEverything(t: Transaction, cs: seq<Category>)
    ensures MatchesSearch(t, cs, "")
  {
    ContainsTrivial(Lower(t.description));
  }

  /** Only the date field of the filter state set. */
  function OnlyDate(f: FilterState): FilterState { NoFilters().(date := f.date) }
  function OnlyCategory(f: FilterState): FilterState { NoFilters().(category := f.category) }
  function OnlyDescription(f: FilterState): FilterState { NoFilters().(description := f.description) }
  function OnlyAmount(f: FilterState): FilterState { NoFilters().(amount := f.amount) }
  function OnlyKind(f: FilterState): FilterState { NoFilters().(kind := f.kind) }

  /** The column filters combine with AND, and an unset filter imposes nothing:
      all filters pass exactly when each one, set alone, passes. */
  lemma ColumnsAreConjunctive(t: Transaction, cs: seq<Category>, f: FilterState)
    ensures MatchesColumns(t, cs, NoFilters())
    ensures MatchesColumns(t, cs, f) <==>
      MatchesColumns(t, cs, OnlyDate(f)) && MatchesColumns(t, cs, OnlyCategory(f)) &&
      MatchesColumns(t, cs, OnlyDescription(f)) && MatchesColumns(t, cs, OnlyAmount(f)) &&
      MatchesColumns(t, cs, OnlyKind(f))
  {
  }

  /** Description and category filters ignore the case of what is typed. */
  lemma ColumnsCaseInsensitive(t: Transaction, cs: seq<Category>, f: FilterState)
    ensures MatchesColumns(t, cs, f) ==
            MatchesColumns(t, cs, f.(description := Lower(f.description), category := Lower(f.category)))
  {
    LowerIdempotent(f.description);
    LowerIdempotent(f.category);
  }

  /** A category filter hides transactions whose category id resolves to no
      category. */
  lemma UnresolvedCategoryHidden(t: Transaction, cs: seq<Category>, f: FilterState)
    requires f.category != ""
    requires forall i :: 0 <= i < |cs| ==> cs[i].id != t.category
    ensures !MatchesColumns(t, cs, f)
  {
  }

  /** The type filter is equality on the transaction type. */
  lemma KindFilterIsEquality(t: Transaction, cs: seq<Category>, k: TxType)
    ensures MatchesColumns(t, cs, OnlyKind(NoFilters().(kind := OnlyType(k)))) <==> t.kind == k
  {
  }

  /** The day window keeps exactly today's transactions. */
  lemma DayWindowIsToday(t: Transaction, now: CalendarDate)
    ensures InDateRange(t, Day, now) <==> t.date == now
  {
    LessEqTotalOrder(t.date, now, now);
  }

  /** The month window keeps exactly the transactions of the current month. */
  lemma MonthWindowIsCurrentMonth(t: Transaction, now: CalendarDate)
    ensures InDateRange(t, Month, now) <==> MonthOf(t.date) == MonthOf(now)
  {
    InMonthIffSameMonth(t.date, now);
  }

  /** The week window runs from the Sunday on or before now to the Saturday
      six days later, and today's transactions are in it. */
  lemma WeekWindowBounds(t: Transaction, now: CalendarDate)
    ensures InDateRange(t, Week, now) <==>
      LessEq(StartOfWeek(now), t.date) && LessEq(t.date, AddDays(StartOfWeek(now), 6))
    ensures Weekday(StartOfWeek(now)) == 0 && Weekday(AddDays(StartOfWeek(now), 6)) == 6
    ensures AddDays(StartOfWeek(now), Weekday(now)) == now
    ensures t.date == now ==> InDateRange(t, Week, now)
  {
    InOwnWeek(now);
    WeekIsSundayToSaturday(now);
  }

  /** The week of Wednesday 10 January 2024 is Sunday 7 to Saturday 13. */
  lemma WeekExample()
    ensures GetDateRange(Week, Date(2024, 1, 10)) == Some(Span(Date(2024, 1, 7), Date(2024, 1, 13)))
  {
    assert YearPart(2023) == 133 && MonthTerm(1) == 36;
    assert Weekday(Date(2024, 1, 10)) == 3;
  }
}
