/** The read-only queries of ExpenseManager over its list of records: totals
    and listings for a date, a month of a year, or a year, the same broken down
    by category, and the label-to-sum mappings the charts are drawn from. Where
    the program prints, the model returns what it would print. Month and year
    queries parse every stored date with strptime; one date it rejects makes the
    query raise ValueError, which the model returns as None (or DateError). */
module Queries {
  import opened Options
  import opened Dates
  import opened Records
  import opened Grouping

  function DateOf(e: Expense): string { e.date }
  function CategoryOf(e: Expense): string { e.category }
  function AmountOf(e: Expense): int { e.amount }

  /** The (month, year) of a record's date, compared by the month queries; the
      month name strftime('%B') prints is a one-to-one function of the month
      number, so names are compared as numbers. */
  function MonthYearOf(e: Expense): Option<(int, int)>
  {
    match ParseDate(e.date)
    case None => None
    case Some(d) => Some((d.month, d.year))
  }

  function MonthOf(e: Expense): Option<int>
  {
    match ParseDate(e.date)
    case None => None
    case Some(d) => Some(d.month)
  }

  function YearOf(e: Expense): Option<int>
  {
    match ParseDate(e.date)
    case None => None
    case Some(d) => Some(d.year)
  }

  /** Every stored date is one strptime accepts. */
  predicate DatesParse(es: seq<Expense>)
  {
    forall i :: 0 <= i < |es| ==> ParseDate(es[i].date).Some?
  }

  /** sum(expense['amount'] for expense in es) */
  function Total(es: seq<Expense>): int
  {
    SumOf(es, AmountOf)
  }

  /** The records of view_expenses(date): those whose date text equals `date`. */
  function OnDate(es: seq<Expense>, date: string): seq<Expense>
  {
    Select(es, DateOf, date)
  }

  /** total_expenses(date) */
  function DayTotal(es: seq<Expense>, date: string): int
  {
    Total(OnDate(es, date))
  }

  /** The records of view_monthly_expenses(year, month). */
  function InMonth(es: seq<Expense>, month: int, year: int): (r: Option<seq<Expense>>)
    ensures r.Some? <==> DatesParse(es)
    ensures r.Some? ==> forall i :: 0 <= i < |es| ==>
      (es[i] in r.value <==> ParseDate(es[i].date).value.month == month && ParseDate(es[i].date).value.year == year)
  {
    if DatesParse(es) then
      SelectMembers(es, MonthYearOf, Some((month, year)));
      Some(Select(es, MonthYearOf, Some((month, year))))
    else None
  }

  /** The records of view_yearly_expenses(year). */
  function InYear(es: seq<Expense>, year: int): (r: Option<seq<Expense>>)
    ensures r.Some? <==> DatesParse(es)
    ensures r.Some? ==> forall i :: 0 <= i < |es| ==> (es[i] in r.value <==> ParseDate(es[i].date).value.year == year)
  {
    if DatesParse(es) then
      SelectMembers(es, YearOf, Some(year));
      Some(Select(es, YearOf, Some(year)))
    else None
  }

  /** What total_monthly_expense and total_yearly_expense print: the total and
      whether it is over the limit, when one is set. */
  datatype TotalReport = TotalReport(total: int, overLimit: bool)

  /** total_monthly_expense(year, month): raises iff a stored date does not
      parse; the warning is printed exactly when a limit is set and the total
      exceeds it. */
  function MonthlyTotal(es: seq<Expense>, month: int, year: int, limit: Option<int>): (r: Option<TotalReport>)
    ensures r.Some? <==> DatesParse(es)
    ensures r.Some? ==> (r.value.overLimit <==> limit.Some? && r.value.total > limit.value)
  {
    match InMonth(es, month, year)
    case None => None
    case Some(rs) => Some(TotalReport(Total(rs), limit.Some? && Total(rs) > limit.value))
  }

  /** total_yearly_expense(year), in the same way. */
  function YearlyTotal(es: seq<Expense>, year: int, limit: Option<int>): (r: Option<TotalReport>)
    ensures r.Some? <==> DatesParse(es)
    ensures r.Some? ==> (r.value.overLimit <==> limit.Some? && r.value.total > limit.value)
  {
    match InYear(es, year)
    case None => None
    case Some(rs) => Some(TotalReport(Total(rs), limit.Some? && Total(rs) > limit.value))
  }

  /** The per-category sums printed by the total_*_by_category queries: one
      entry for each category present in the period. */
  function CategoryTotals(period: seq<Expense>): (m: map<string, int>)
    ensures forall i :: 0 <= i < |period| ==> period[i].category in m
    ensures forall c :: c in m ==> exists i :: 0 <= i < |period| && period[i].category == c
    ensures forall c :: c in m ==> m[c] == Total(Select(period, CategoryOf, c))
  {
    var ks := KeysInOrder(period, CategoryOf);
    KeysInOrderCovers(period, CategoryOf);
    map c | c in ks :: Total(Select(period, CategoryOf, c))
  }

  /** total_daily_expense_by_category(date) */
  function DailyCategoryTotals(es: seq<Expense>, date: string): map<string, int>
  {
    CategoryTotals(OnDate(es, date))
  }

  /** total_monthly_expense_by_category(year, month) */
  function MonthlyCategoryTotals(es: seq<Expense>, month: int, year: int): Option<map<string, int>>
  {
    match InMonth(es, month, year)
    case None => None
    case Some(rs) => Some(CategoryTotals(rs))
  }

  /** total_yearly_expense_by_category(year) */
  function YearlyCategoryTotals(es: seq<Expense>, year: int): Option<map<string, int>>
  {
    match InYear(es, year)
    case None => None
    case Some(rs) => Some(CategoryTotals(rs))
  }

  /** One more record changes a day's total by its amount exactly when it is
      dated that day. */
  lemma DayTotalSnoc(es: seq<Expense>, e: Expense, date: string)
    ensures DayTotal(es + [e], date) == DayTotal(es, date) + (if e.date == date then e.amount else 0)
  {
    SelectSnoc(es, e, DateOf, date);
    SumOfSnoc(OnDate(es, date), e, AmountOf);
  }

  /** One more record changes a month's total by its amount exactly when it
      is dated in that month of that year. */
  lemma MonthlyTotalSnoc(es: seq<Expense>, e: Expense, month: int, year: int, limit: Option<int>)
    requires DatesParse(es + [e])
    ensures DatesParse(es)
    ensures MonthlyTotal(es + [e], month, year, limit).value.total
         == MonthlyTotal(es, month, year, limit).value.total
            + (if MonthYearOf(e) == Some((month, year)) then e.amount else 0)
  {
    assert forall i :: 0 <= i < |es| ==> es[i] == (es + [e])[i];
    SelectSnoc(es, e, MonthYearOf, Some((month, year)));
    SumOfSnoc(InMonth(es, month, year).value, e, AmountOf);
  }

  /** One more record changes a year's total by its amount exactly when it is
      dated in that year. */
  lemma YearlyTotalSnoc(es: seq<Expense>, e: Expense, year: int, limit: Option<int>)
    requires DatesParse(es + [e])
    ensures DatesParse(es)
    ensures YearlyTotal(es + [e], year, limit).value.total
         == YearlyTotal(es, year, limit).value.total + (if YearOf(e) == Some(year) then e.amount else 0)
  {
    assert forall i :: 0 <= i < |es| ==> es[i] == (es + [e])[i];
    SelectSnoc(es, e, YearOf, Some(year));
    SumOfSnoc(InYear(es, year).value, e, AmountOf);
  }

  /** The values of a category map, summed over the keys ks. */
  function SumValues(m: map<string, int>, ks: seq<string>): int
    requires forall j :: 0 <= j < |ks| ==> ks[j] in m
  {
    if ks == [] then 0 else SumValues(m, ks[..|ks| - 1]) + m[ks[|ks| - 1]]
  }

  /** Summing the category map over some of its keys is summing those
      categories' groups. */
  lemma {:induction false} SumValuesGroupSums(period: seq<Expense>, ks: seq<string>)
    requires forall j :: 0 <= j < |ks| ==> ks[j] in CategoryTotals(period)
    ensures SumValues(CategoryTotals(period), ks) == GroupSums(period, CategoryOf, AmountOf, ks)
  {
    if ks != [] {
      SumValuesGroupSums(period, ks[..|ks| - 1]);
    }
  }

  /** The per-category sums the by-category queries print add up to the
      period's total. The keys are summed in first-occurrence order; they are
      distinct and are exactly the map's keys, so every entry is summed once. */
  lemma CategoryTotalsSum(period: seq<Expense>)
    ensures forall j :: 0 <= j < |KeysInOrder(period, CategoryOf)| ==> KeysInOrder(period, CategoryOf)[j] in CategoryTotals(period)
    ensures SumValues(CategoryTotals(period), KeysInOrder(period, CategoryOf)) == Total(period)
  {
    var ks := KeysInOrder(period, CategoryOf);
    var m := CategoryTotals(period);
    forall j | 0 <= j < |ks| ensures ks[j] in m {
      KeysInOrderCovers(period, CategoryOf);
      assert ks[j] in ks;
    }
    SumValuesGroupSums(period, ks);
    CategoriesPartitionPeriod(period);
  }

  /** The category sums of a month add up to total_monthly_expense of that
      month, whenever the stored dates parse. */
  lemma MonthTotalByCategory(es: seq<Expense>, month: int, year: int, limit: Option<int>)
    requires DatesParse(es)
    ensures MonthlyCategoryTotals(es, month, year).Some? && MonthlyTotal(es, month, year, limit).Some?
    ensures SumValues(MonthlyCategoryTotals(es, month, year).value,
                      KeysInOrder(InMonth(es, month, year).value, CategoryOf))
         == MonthlyTotal(es, month, year, limit).value.total
  {
    CategoryTotalsSum(InMonth(es, month, year).value);
  }

  /** The category sums of a year add up to total_yearly_expense of that
      year, whenever the stored dates parse. */
  lemma YearTotalByCategory(es: seq<Expense>, year: int, limit: Option<int>)
    requires DatesParse(es)
    ensures YearlyCategoryTotals(es, year).Some? && YearlyTotal(es, year, limit).Some?
    ensures SumValues(YearlyCategoryTotals(es, year).value, KeysInOrder(InYear(es, year).value, CategoryOf))
         == YearlyTotal(es, year, limit).value.total
  {
    CategoryTotalsSum(InYear(es, year).value);
  }

  /** The categories of a period partition it: the per-category sums add up to
      the period's total, and every record is counted in its own category and
      in no other. */
  lemma CategoriesPartitionPeriod(period: seq<Expense>)
    ensures GroupSums(period, CategoryOf, AmountOf, KeysInOrder(period, CategoryOf)) == Total(period)
    ensures GroupSums(period, CategoryOf, One, KeysInOrder(period, CategoryOf)) == |period|
    ensures forall i :: 0 <= i < |period| ==> period[i] in Select(period, CategoryOf, period[i].category)
    ensures forall i, c :: 0 <= i < |period| && c != period[i].category ==> period[i] !in Select(period, CategoryOf, c)
  {
    GroupsPartitionSum(period, CategoryOf, AmountOf);
    GroupsPartition(period, CategoryOf);
  }

  /** The category sums of a day add up to total_expenses of that day. */
  lemma DayTotalByCategory(es: seq<Expense>, date: string)
    ensures GroupSums(OnDate(es, date), CategoryOf, AmountOf, KeysInOrder(OnDate(es, date), CategoryOf))
         == DayTotal(es, date)
    ensures SumValues(DailyCategoryTotals(es, date), KeysInOrder(OnDate(es, date), CategoryOf))
         == DayTotal(es, date)
  {
    CategoriesPartitionPeriod(OnDate(es, date));
    CategoryTotalsSum(OnDate(es, date));
  }

  /** The month sums of a year add up to total_yearly_expense of that year. */
  lemma YearTotalByMonth(es: seq<Expense>, year: int)
    requires DatesParse(es)
    ensures GroupSums(InYear(es, year).value, MonthOf, AmountOf, KeysInOrder(InYear(es, year).value, MonthOf))
         == YearlyTotal(es, year, None).value.total
  {
    GroupsPartitionSum(InYear(es, year).value, MonthOf, AmountOf);
  }

  /** What a chart is drawn from: labels and their sums, in the dictionary's
      order; NoData when the period has no records (the program prints a
      message instead of drawing); DateError when strptime raised. */
  datatype Chart<K> = NoData | DateError | Drawn(labels: seq<K>, values: seq<int>)

  /** The pie chart data of one period, grouped by category. */
  method CategoryChart(period: seq<Expense>) returns (chart: Chart<string>)
    ensures chart.DateError? == false
    ensures chart.NoData? <==> period == []
    ensures chart.Drawn? ==> chart.labels == KeysInOrder(period, CategoryOf)
    ensures chart.Drawn? ==> |chart.values| == |chart.labels|
    ensures chart.Drawn? ==> forall j :: 0 <= j < |chart.labels| ==>
      chart.values[j] == Total(Select(period, CategoryOf, chart.labels[j]))
  {
    if period == [] {
      return NoData;
    }
    var labels, values := GroupTotals(period, CategoryOf, AmountOf);
    chart := Drawn(labels, values);
  }

  /** visualize_expenses_by_date(date) */
  method VisualizeByDate(es: seq<Expense>, date: string) returns (chart: Chart<string>)
    ensures !chart.DateError?
    ensures chart.NoData? <==> OnDate(es, date) == []
    ensures chart.Drawn? ==> chart.labels == KeysInOrder(OnDate(es, date), CategoryOf)
    ensures chart.Drawn? ==> |chart.values| == |chart.labels|
    ensures chart.Drawn? ==> forall j :: 0 <= j < |chart.labels| ==>
      chart.values[j] == Total(Select(OnDate(es, date), CategoryOf, chart.labels[j]))
  {
    chart := CategoryChart(OnDate(es, date));
  }

  /** visualize_expenses_by_month(year, month) */
  method VisualizeByMonth(es: seq<Expense>, month: int, year: int) returns (chart: Chart<string>)
    ensures chart.DateError? <==> !DatesParse(es)
    ensures chart.NoData? <==> InMonth(es, month, year) == Some([])
    ensures chart.Drawn? ==> chart.labels == KeysInOrder(InMonth(es, month, year).value, CategoryOf)
    ensures chart.Drawn? ==> |chart.values| == |chart.labels|
    ensures chart.Drawn? ==> forall j :: 0 <= j < |chart.labels| ==>
      chart.values[j] == Total(Select(InMonth(es, month, year).value, CategoryOf, chart.labels[j]))
  {
    var period := InMonth(es, month, year);
    if period.None? {
      return DateError;
    }
    chart := CategoryChart(period.value);
  }

  /** visualize_expenses_by_year(year) */
  method VisualizeByYear(es: seq<Expense>, year: int) returns (chart: Chart<string>)
    ensures chart.DateError? <==> !DatesParse(es)
    ensures chart.NoData? <==> InYear(es, year) == Some([])
    ensures chart.Drawn? ==> chart.labels == KeysInOrder(InYear(es, year).value, CategoryOf)
    ensures chart.Drawn? ==> |chart.values| == |chart.labels|
    ensures chart.Drawn? ==> forall j :: 0 <= j < |chart.labels| ==>
      chart.values[j] == Total(Select(InYear(es, year).value, CategoryOf, chart.labels[j]))
  {
    var period := InYear(es, year);
    if period.None? {
      return DateError;
    }
    chart := CategoryChart(period.value);
  }

  /** visualize_monthexpenses_by_year(year): the bar chart of a year, one bar per
      month that has records, in order of first occurrence. */
  method VisualizeMonthsOfYear(es: seq<Expense>, year: int) returns (chart: Chart<Option<int>>)
    ensures chart.DateError? <==> !DatesParse(es)
    ensures chart.NoData? <==> InYear(es, year) == Some([])
    ensures chart.Drawn? ==> chart.labels == KeysInOrder(InYear(es, year).value, MonthOf)
    ensures chart.Drawn? ==> |chart.values| == |chart.labels|
    ensures chart.Drawn? ==> forall j :: 0 <= j < |chart.labels| ==>
      chart.values[j] == Total(Select(InYear(es, year).value, MonthOf, chart.labels[j]))
  {
    var period := InYear(es, year);
    if period.None? {
      return DateError;
    }
    if period.value == [] {
      return NoData;
    }
    var labels, values := GroupTotals(period.value, MonthOf, AmountOf);
    chart := Drawn(labels, values);
  }

  /** What the view_*_by_category queries print: each category of the period
      with its records in their original order. */
  datatype Listing = NoRecords | ListError | Listed(categories: seq<string>, groups: seq<seq<Expense>>)

  method CategoryListing(period: seq<Expense>) returns (listing: Listing)
    ensures listing.ListError? == false
    ensures listing.NoRecords? <==> period == []
    ensures listing.Listed? ==> listing.categories == KeysInOrder(period, CategoryOf)
    ensures listing.Listed? ==> |listing.groups| == |listing.categories|
    ensures listing.Listed? ==> forall j :: 0 <= j < |listing.categories| ==>
      listing.groups[j] == Select(period, CategoryOf, listing.categories[j])
  {
    if period == [] {
      return NoRecords;
    }
    var labels, groups := GroupLists(period, CategoryOf);
    listing := Listed(labels, groups);
  }

  /** view_daily_expense_by_category(date) */
  method ViewDailyByCategory(es: seq<Expense>, date: string) returns (listing: Listing)
    ensures !listing.ListError?
    ensures listing.NoRecords? <==> OnDate(es, date) == []
    ensures listing.Listed? ==> listing.categories == KeysInOrder(OnDate(es, date), CategoryOf)
    ensures listing.Listed? ==> |listing.groups| == |listing.categories|
    ensures listing.Listed? ==> forall j :: 0 <= j < |listing.categories| ==>
      listing.groups[j] == Select(OnDate(es, date), CategoryOf, listing.categories[j])
  {
    listing := CategoryListing(OnDate(es, date));
  }

  /** view_monthly_expense_by_category(year, month); this one takes the month
      as a number. */
  method ViewMonthlyByCategory(es: seq<Expense>, month: int, year: int) returns (listing: Listing)
    ensures listing.ListError? <==> !DatesParse(es)
    ensures listing.NoRecords? <==> InMonth(es, month, year) == Some([])
    ensures listing.Listed? ==> listing.categories == KeysInOrder(InMonth(es, month, year).value, CategoryOf)
    ensures listing.Listed? ==> |listing.groups| == |listing.categories|
    ensures listing.Listed? ==> forall j :: 0 <= j < |listing.categories| ==>
      listing.groups[j] == Select(InMonth(es, month, year).value, CategoryOf, listing.categories[j])
  {
    var period := InMonth(es, month, year);
    if period.None? {
      return ListError;
    }
    listing := CategoryListing(period.value);
  }
}
