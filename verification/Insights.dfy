/** The monthly breakdown and the rolling trends: two views over the same rows. Query answers are
    inputs, constrained only by what the SQL promises: which groups, which sums, which order. */
module Insights {
  import opened Domain
  import opened Calendar
  import opened Ledger
  import Money

  predicate Dated(rows: seq<Expense>) {
    forall i | 0 <= i < |rows| :: Valid(rows[i].date)
  }

  // ----- monthly breakdown --------------------------------------------------

  datatype CategoryTotal = CategoryTotal(category: Category, total: int, count: nat, average: int)

  datatype MonthlyBreakdown =
    MonthlyBreakdown(month: Date, grandTotal: int, grandCount: nat, items: seq<CategoryTotal>)

  function CategoriesOf(items: seq<CategoryTotal>): seq<Category> {
    seq(|items|, i requires 0 <= i < |items| => items[i].category)
  }

  /** GROUP BY category ORDER BY sum DESC over the selected rows. */
  ghost predicate AnswersBreakdown(answer: seq<CategoryTotal>, rows: seq<Expense>) {
    && Distinct(CategoriesOf(answer))
    && (forall i | 0 <= i < |rows| :: rows[i].category in CategoriesOf(answer))
    && (forall i | 0 <= i < |answer| ::
          var own := OfCategory(rows, answer[i].category);
          && own != [] && answer[i].total == Sum(own) && answer[i].count == |own|
          && answer[i].average == Money.Nearest(Sum(own), |own|))
    && (forall i, j | 0 <= i < j < |answer| :: answer[i].total >= answer[j].total)
  }

  function SumTotals(items: seq<CategoryTotal>): int {
    if items == [] then 0 else items[0].total + SumTotals(items[1..])
  }

  function SumCounts(items: seq<CategoryTotal>): nat {
    if items == [] then 0 else items[0].count + SumCounts(items[1..])
  }

  /** The response; None where the month after it is beyond the calendar. */
  function Breakdown(month: Date, answer: seq<CategoryTotal>): Option<MonthlyBreakdown> {
    match MonthBounds(month)
    case None => None
    case Some(bounds) => Some(MonthlyBreakdown(bounds.0, SumTotals(answer), SumCounts(answer), answer))
  }

  lemma {:induction false} TotalsFollowCategories(items: seq<CategoryTotal>, rows: seq<Expense>)
    requires forall i | 0 <= i < |items| ::
      var own := OfCategory(rows, items[i].category); items[i].total == Sum(own) && items[i].count == |own|
    ensures SumTotals(items) == SumByCategory(rows, CategoriesOf(items))
    ensures SumCounts(items) == CountByCategory(rows, CategoriesOf(items))
  {
    if items != [] {
      TotalsFollowCategories(items[1..], rows);
      assert CategoriesOf(items)[1..] == CategoriesOf(items[1..]);
    }
  }

  /** The grand total and count are those of the month, whatever the categories. */
  lemma {:induction false} GrandTotalIsTheMonth(month: Date, answer: seq<CategoryTotal>, rows: seq<Expense>)
    requires MonthBounds(month).Some? && AnswersBreakdown(answer, rows)
    ensures Breakdown(month, answer).value.month == Date(month.year, month.month, 1)
    ensures Breakdown(month, answer).value.items == answer
    ensures Breakdown(month, answer).value.grandTotal == Sum(rows)
    ensures Breakdown(month, answer).value.grandCount == |rows|
  {
    TotalsFollowCategories(answer, rows);
    CategoriesPartition(rows, CategoriesOf(answer));
  }

  // ----- trends -------------------------------------------------------------

  const MAX_TRENDS_MONTHS: int := 60

  datatype TrendBucket = TrendBucket(month: Date, category: Category, total: int)

  datatype CategoryTrends =
    CategoryTrends(months: seq<Date>, categories: seq<Category>, buckets: seq<TrendBucket>)

  function ClampMonths(months: int): (n: nat)
    ensures 1 <= n <= 60
    ensures n == months || (months < 1 && n == 1) || (months > 60 && n == 60)
  {
    var capped := if months < MAX_TRENDS_MONTHS then months else MAX_TRENDS_MONTHS;
    if capped < 1 then 1 else capped
  }

  /** Index of the first month of the window. */
  function FirstIndex(anchor: Date, months: int): int {
    MonthIndex(anchor) - (ClampMonths(months) - 1)
  }

  /** The window of days; None where it would leave the calendar. */
  function Window(anchor: Date, months: int): Option<(Date, Date)> {
    if MonthAt(FirstIndex(anchor, months)).year < 1 then None
    else
      match MonthBounds(anchor)
      case None => None
      case Some(bounds) => Some((MonthAt(FirstIndex(anchor, months)), bounds.1))
  }

  /** A day is in the window exactly when its month is one of the n. */
  lemma {:induction false} WindowIsMonths(anchor: Date, months: int, d: Date)
    requires Valid(anchor) && Valid(d) && Window(anchor, months).Some?
    ensures Within(d, Window(anchor, months).value)
        <==> FirstIndex(anchor, months) <= MonthIndex(d) <= MonthIndex(anchor)
  {
  }

  /** GROUP BY month, category: one row for each pair that occurs, in any order. */
  ghost predicate AnswersTrends(answer: seq<TrendBucket>, rows: seq<Expense>) {
    && (forall i, j | 0 <= i < j < |answer| :: KeyOf(answer[i]) != KeyOf(answer[j]))
    && (forall i | 0 <= i < |answer| ::
          && Occurs(rows, answer[i].month, answer[i].category)
          && answer[i].total == CellTotal(rows, MonthIndex(answer[i].month), answer[i].category))
    && (forall i | 0 <= i < |rows| :: HasGroup(answer, FirstOfMonth(rows[i].date), rows[i].category))
  }

  function KeyOf(b: TrendBucket): (Date, Category) {
    (b.month, b.category)
  }

  predicate Occurs(rows: seq<Expense>, month: Date, c: Category) {
    exists i | 0 <= i < |rows| :: FirstOfMonth(rows[i].date) == month && rows[i].category == c
  }

  predicate HasGroup(answer: seq<TrendBucket>, month: Date, c: Category) {
    exists i | 0 <= i < |answer| :: KeyOf(answer[i]) == (month, c)
  }

  function CellTotal(rows: seq<Expense>, index: int, c: Category): int {
    Sum(OfCategory(OfMonth(rows, index), c))
  }

  // The value order of the category enumeration.
  const BY_VALUE: seq<Category> := [
    Education, Entertainment, FoodDining, Groceries, Healthcare, Housing,
    Other, Personal, Shopping, Transportation, Travel, Utilities]

  function Rank(c: Category): nat {
    match c
    case Education => 0
    case Entertainment => 1
    case FoodDining => 2
    case Groceries => 3
    case Healthcare => 4
    case Housing => 5
    case Other => 6
    case Personal => 7
    case Shopping => 8
    case Transportation => 9
    case Travel => 10
    case Utilities => 11
  }

  predicate Ascending(categories: seq<Category>) {
    forall i, j | 0 <= i < j < |categories| :: Rank(categories[i]) < Rank(categories[j])
  }

  predicate SpentOn(rows: seq<Expense>, c: Category) {
    exists i | 0 <= i < |rows| :: rows[i].category == c
  }

  predicate Answered(answer: seq<TrendBucket>, c: Category) {
    exists i | 0 <= i < |answer| :: answer[i].category == c
  }

  /** Sorted, without repetition, and exactly the categories with spend among the rows. */
  ghost predicate SpentIn(categories: seq<Category>, rows: seq<Expense>) {
    && Ascending(categories)
    && forall c :: c in categories <==> SpentOn(rows, c)
  }

  // ----- the dense grid -----------------------------------------------------

  function Line(rows: seq<Expense>, index: int, categories: seq<Category>): seq<TrendBucket> {
    seq(|categories|, j requires 0 <= j < |categories| =>
      TrendBucket(MonthAt(index), categories[j], CellTotal(rows, index, categories[j])))
  }

  /** `n` lines, one a month from month `from`. */
  function Grid(rows: seq<Expense>, from: int, n: nat, categories: seq<Category>): seq<TrendBucket> {
    if n == 0 then [] else Grid(rows, from, n - 1, categories) + Line(rows, from + n - 1, categories)
  }

  function Months(from: int, n: nat): seq<Date> {
    seq(n, i => MonthAt(from + i))
  }

  /** sorted(set of the answer's categories). */
  method SortedCategories(answer: seq<TrendBucket>) returns (categories: seq<Category>)
    ensures Ascending(categories)
    ensures forall c :: c in categories <==> Answered(answer, c)
  {
    categories := [];
    for k := 0 to |BY_VALUE|
      invariant Ascending(categories)
      invariant forall c :: c in categories <==> Rank(c) < k && Answered(answer, c)
    {
      RankOfNth(k);
      if Answered(answer, BY_VALUE[k]) {
        categories := categories + [BY_VALUE[k]];
      }
    }
  }

  lemma RankOfNth(k: nat)
    requires k < |BY_VALUE|
    ensures forall c :: Rank(c) == k <==> c == BY_VALUE[k]
    ensures forall c :: Rank(c) < |BY_VALUE|
  {
  }

  lemma AnsweredCategories(answer: seq<TrendBucket>, rows: seq<Expense>, c: Category)
    requires AnswersTrends(answer, rows)
    ensures Answered(answer, c) <==> SpentOn(rows, c)
  {
    if Answered(answer, c) {
      var i :| 0 <= i < |answer| && answer[i].category == c;
      assert Occurs(rows, answer[i].month, answer[i].category);
    }
    if SpentOn(rows, c) {
      var i :| 0 <= i < |rows| && rows[i].category == c;
      assert HasGroup(answer, FirstOfMonth(rows[i].date), rows[i].category);
    }
  }

  /** The dictionary of the sparse answer: what it holds for a cell, or zero, is the cell's spend. */
  ghost predicate Holds(totals: map<(Date, Category), int>, rows: seq<Expense>) {
    forall index, c :: Lookup(totals, MonthAt(index), c) == CellTotal(rows, index, c)
  }

  function Lookup(totals: map<(Date, Category), int>, month: Date, c: Category): int {
    if (month, c) in totals then totals[(month, c)] else 0
  }

  method FillTotals(answer: seq<TrendBucket>, ghost rows: seq<Expense>) returns (totals: map<(Date, Category), int>)
    requires AnswersTrends(answer, rows) && Dated(rows)
    ensures Holds(totals, rows)
  {
    totals := map[];
    for k := 0 to |answer|
      invariant Filled(totals, answer[..k])
    {
      FillOne(totals, answer, k);
      totals := totals[(answer[k].month, answer[k].category) := answer[k].total];
    }
    assert answer[..|answer|] == answer;
    forall index, c ensures Lookup(totals, MonthAt(index), c) == CellTotal(rows, index, c) {
      LookupIsSpend(answer, rows, totals, index, c);
    }
  }

  /** The dictionary of some groups: their keys and their totals. */
  ghost predicate Filled(totals: map<(Date, Category), int>, answer: seq<TrendBucket>) {
    && (forall month, c :: (month, c) in totals <==> HasGroup(answer, month, c))
    && (forall i | 0 <= i < |answer| :: KeyOf(answer[i]) in totals && totals[KeyOf(answer[i])] == answer[i].total)
  }

  lemma FillOne(totals: map<(Date, Category), int>, answer: seq<TrendBucket>, k: nat)
    requires k < |answer| && Filled(totals, answer[..k])
    requires forall i, j | 0 <= i < j < |answer| :: KeyOf(answer[i]) != KeyOf(answer[j])
    ensures Filled(totals[KeyOf(answer[k]) := answer[k].total], answer[..k + 1])
  {
    var before, after := answer[..k], answer[..k + 1];
    forall month, c
      ensures HasGroup(after, month, c) <==> HasGroup(before, month, c) || KeyOf(answer[k]) == (month, c)
    {
      if i :| 0 <= i < k && KeyOf(before[i]) == (month, c) { assert KeyOf(after[i]) == (month, c); }
      if KeyOf(answer[k]) == (month, c) { assert KeyOf(after[k]) == (month, c); }
    }
    forall i | 0 <= i < k ensures KeyOf(answer[i]) in totals && totals[KeyOf(answer[i])] == answer[i].total {
      assert before[i] == answer[i];
    }
    hide HasGroup;
  }

  lemma LookupIsSpend(
    answer: seq<TrendBucket>, rows: seq<Expense>, totals: map<(Date, Category), int>, index: int, c: Category)
    requires AnswersTrends(answer, rows) && Dated(rows)
    requires (MonthAt(index), c) in totals <==> HasGroup(answer, MonthAt(index), c)
    requires forall i | 0 <= i < |answer| ::
      KeyOf(answer[i]) == (MonthAt(index), c) ==> Lookup(totals, MonthAt(index), c) == answer[i].total
    ensures Lookup(totals, MonthAt(index), c) == CellTotal(rows, index, c)
  {
    MonthAtIndex(index);
    if HasGroup(answer, MonthAt(index), c) {
      var i :| 0 <= i < |answer| && KeyOf(answer[i]) == (MonthAt(index), c);
    } else if CellTotal(rows, index, c) != 0 {
      SpendHasGroup(answer, rows, index, c);
    }
  }

  lemma SpendHasGroup(answer: seq<TrendBucket>, rows: seq<Expense>, index: int, c: Category)
    requires AnswersTrends(answer, rows) && Dated(rows) && CellTotal(rows, index, c) != 0
    ensures HasGroup(answer, MonthAt(index), c)
  {
    var own := OfCategory(OfMonth(rows, index), c);
    OfMonthMembers(rows, index);
    OfCategoryMembers(OfMonth(rows, index), c);
    var e := own[0];
    assert e in own && e in rows;
    var i :| 0 <= i < |rows| && rows[i] == e;
    FirstOfIndexedMonth(e.date);
    assert HasGroup(answer, FirstOfMonth(rows[i].date), rows[i].category);
  }

  lemma FirstOfIndexedMonth(d: Date)
    requires Valid(d)
    ensures FirstOfMonth(d) == MonthAt(MonthIndex(d))
  {
  }

  /** Every month by every category, zeros included. */
  method FillGrid(
    months: seq<Date>, categories: seq<Category>, totals: map<(Date, Category), int>,
    ghost rows: seq<Expense>, ghost from: int) returns (buckets: seq<TrendBucket>)
    requires Holds(totals, rows) && months == Months(from, |months|)
    ensures buckets == Grid(rows, from, |months|, categories)
  {
    buckets := [];
    for i := 0 to |months|
      invariant buckets == Grid(rows, from, i, categories)
    {
      ghost var above := buckets;
      for j := 0 to |categories|
        invariant buckets == above + Line(rows, from + i, categories[..j])
      {
        assert months[i] == MonthAt(from + i);
        var cell := TrendBucket(months[i], categories[j], Lookup(totals, months[i], categories[j]));
        assert Line(rows, from + i, categories[..j + 1]) == Line(rows, from + i, categories[..j]) + [cell];
        buckets := buckets + [cell];
      }
      assert categories[..|categories|] == categories;
    }
  }

  /** The months of the window, oldest first. */
  method MonthDates(anchor: Date, n: nat) returns (dates: seq<Date>)
    requires Valid(anchor) && n >= 1 && MonthAt(MonthIndex(anchor) - (n - 1)).year >= 1
    ensures dates == Months(MonthIndex(anchor) - (n - 1), n)
  {
    dates := [];
    for i := 0 to n
      invariant dates == Months(MonthIndex(anchor) - (n - 1), i)
    {
      var month := MonthsBack(FirstOfMonth(anchor), n - 1 - i);
      dates := dates + [month.value];
    }
  }

  /** The rolling trends. None is the error of a window that leaves the calendar. */
  method Trends(rows: seq<Expense>, user: UserId, anchor: Date, months: int, answer: seq<TrendBucket>)
    returns (r: Option<CategoryTrends>)
    requires Valid(anchor) && Dated(rows)
    requires Window(anchor, months).Some? ==>
      AnswersTrends(answer, Select(rows, user, Window(anchor, months).value))
    ensures r.Some? <==> Window(anchor, months).Some?
    ensures r.Some? ==>
      var selected := Select(rows, user, Window(anchor, months).value);
      && r.value.months == Months(FirstIndex(anchor, months), ClampMonths(months))
      && SpentIn(r.value.categories, selected)
      && r.value.buckets == Grid(selected, FirstIndex(anchor, months), ClampMonths(months), r.value.categories)
  {
    var n := ClampMonths(months);
    var start := MonthsBack(FirstOfMonth(anchor), n - 1);
    if start.None? || MonthBounds(FirstOfMonth(anchor)).None? { return None; }
    ghost var from := FirstIndex(anchor, months);
    ghost var selected := Select(rows, user, Window(anchor, months).value);
    SelectedAreInTheWindow(rows, user, anchor, months);

    var bucketDates := MonthDates(anchor, n);
    hide AnswersTrends, Select, Grid, Holds, Ascending, Answered, SpentOn;
    var categories := SortedCategories(answer);
    forall c ensures c in categories <==> SpentOn(selected, c) {
      AnsweredCategories(answer, selected, c);
    }
    var totals := FillTotals(answer, selected);
    var buckets := FillGrid(bucketDates, categories, totals, selected, from);
    r := Some(CategoryTrends(bucketDates, categories, buckets));
  }

  // ----- the grid is dense and conserves spend ------------------------------

  lemma {:induction false} GridCell(rows: seq<Expense>, from: int, n: nat, categories: seq<Category>, i: nat, j: nat)
    requires i < n && j < |categories|
    ensures |Grid(rows, from, n, categories)| == n * |categories|
    ensures 0 <= i * |categories| + j < n * |categories|
    ensures Grid(rows, from, n, categories)[i * |categories| + j]
         == TrendBucket(MonthAt(from + i), categories[j], CellTotal(rows, from + i, categories[j]))
  {
    GridSize(rows, from, n, categories);
    GridSize(rows, from, n - 1, categories);
    RowMajor(i, j, n, |categories|);
    if i < n - 1 { GridCell(rows, from, n - 1, categories, i, j); }
  }

  /** Row-major positions stay inside the grid. */
  lemma RowMajor(i: nat, j: nat, n: nat, width: nat)
    requires i < n && j < width
    ensures 0 <= i * width + j < n * width && n * width == (n - 1) * width + width
    ensures i < n - 1 ==> i * width + j < (n - 1) * width
    ensures i == n - 1 ==> i * width == (n - 1) * width
  {
    assert (i + 1) * width <= n * width;
    if i < n - 1 { assert (i + 1) * width <= (n - 1) * width; }
  }

  lemma {:induction false} GridSize(rows: seq<Expense>, from: int, n: nat, categories: seq<Category>)
    ensures |Grid(rows, from, n, categories)| == n * |categories|
  {
    if n != 0 {
      GridSize(rows, from, n - 1, categories);
      assert n * |categories| == (n - 1) * |categories| + |categories|;
    }
  }

  function SumBuckets(buckets: seq<TrendBucket>): int {
    if buckets == [] then 0 else buckets[0].total + SumBuckets(buckets[1..])
  }

  lemma {:induction false} SumBucketsConcat(a: seq<TrendBucket>, b: seq<TrendBucket>)
    ensures SumBuckets(a + b) == SumBuckets(a) + SumBuckets(b)
  {
    if a == [] {
      assert a + b == b;
    } else {
      assert (a + b)[1..] == a[1..] + b;
      SumBucketsConcat(a[1..], b);
    }
  }

  lemma {:induction false} LineSum(rows: seq<Expense>, index: int, categories: seq<Category>)
    ensures SumBuckets(Line(rows, index, categories)) == SumByCategory(OfMonth(rows, index), categories)
  {
    if categories != [] {
      assert Line(rows, index, categories)[1..] == Line(rows, index, categories[1..]);
      LineSum(rows, index, categories[1..]);
    }
  }

  /** Every row has its category among some distinct ones. */
  predicate Covers(categories: seq<Category>, rows: seq<Expense>) {
    Distinct(categories) && forall i | 0 <= i < |rows| :: rows[i].category in categories
  }

  lemma SpentInCovers(categories: seq<Category>, rows: seq<Expense>)
    requires SpentIn(categories, rows)
    ensures Covers(categories, rows)
  {
    forall i | 0 <= i < |rows| ensures rows[i].category in categories {
      assert SpentOn(rows, rows[i].category);
    }
  }

  lemma LineIsTheMonth(rows: seq<Expense>, index: int, categories: seq<Category>)
    requires Covers(categories, rows)
    ensures SumBuckets(Line(rows, index, categories)) == Sum(OfMonth(rows, index))
  {
    LineSum(rows, index, categories);
    OfMonthMembers(rows, index);
    var own := OfMonth(rows, index);
    forall i | 0 <= i < |own| ensures own[i].category in categories {
      assert own[i] in own && own[i] in rows;
    }
    CategoriesPartition(own, categories);
  }

  lemma OneMoreLine(rows: seq<Expense>, from: int, n: nat, categories: seq<Category>)
    requires SumBuckets(Grid(rows, from, n, categories)) == SumByMonth(rows, from, n)
    requires SumBuckets(Line(rows, from + n, categories)) == Sum(OfMonth(rows, from + n))
    ensures SumBuckets(Grid(rows, from, n + 1, categories)) == SumByMonth(rows, from, n + 1)
  {
    SumBucketsConcat(Grid(rows, from, n, categories), Line(rows, from + n, categories));
  }

  lemma NoLines(rows: seq<Expense>, from: int, categories: seq<Category>)
    ensures SumBuckets(Grid(rows, from, 0, categories)) == SumByMonth(rows, from, 0)
  {
  }

  lemma {:induction false} GridSum(rows: seq<Expense>, from: int, n: nat, categories: seq<Category>)
    requires Covers(categories, rows)
    ensures SumBuckets(Grid(rows, from, n, categories)) == SumByMonth(rows, from, n)
  {
    hide *;
    if n == 0 {
      NoLines(rows, from, categories);
    } else {
      GridSum(rows, from, n - 1, categories);
      LineIsTheMonth(rows, from + (n - 1), categories);
      OneMoreLine(rows, from, n - 1, categories);
    }
  }

  lemma SelectedAreInTheWindow(rows: seq<Expense>, user: UserId, anchor: Date, months: int)
    requires Valid(anchor) && Dated(rows) && Window(anchor, months).Some?
    ensures
      var selected := Select(rows, user, Window(anchor, months).value);
      && Dated(selected)
      && InMonths(selected, FirstIndex(anchor, months), ClampMonths(months))
  {
    var selected := Select(rows, user, Window(anchor, months).value);
    forall i | 0 <= i < |selected|
      ensures Valid(selected[i].date)
      ensures FirstIndex(anchor, months) <= MonthIndex(selected[i].date)
      ensures MonthIndex(selected[i].date) < FirstIndex(anchor, months) + ClampMonths(months)
    {
      assert selected[i] in rows;
      WindowIsMonths(anchor, months, selected[i].date);
    }
  }

  /** Conservation: the buckets of the response add up to everything spent in the window. */
  lemma {:induction false} TrendsConserveSpend(
    rows: seq<Expense>, user: UserId, anchor: Date, months: int, categories: seq<Category>)
    requires Valid(anchor) && Dated(rows) && Window(anchor, months).Some?
    requires SpentIn(categories, Select(rows, user, Window(anchor, months).value))
    ensures
      var selected := Select(rows, user, Window(anchor, months).value);
      SumBuckets(Grid(selected, FirstIndex(anchor, months), ClampMonths(months), categories)) == Sum(selected)
  {
    var selected := Select(rows, user, Window(anchor, months).value);
    SpentInCovers(categories, selected);
    GridSum(selected, FirstIndex(anchor, months), ClampMonths(months), categories);
    SelectedAreInTheWindow(rows, user, anchor, months);
    MonthsPartition(selected, FirstIndex(anchor, months), ClampMonths(months));
  }

  lemma {:induction false} GridMembers(rows: seq<Expense>, from: int, n: nat, categories: seq<Category>, k: nat)
    requires k < |Grid(rows, from, n, categories)|
    ensures
      var b := Grid(rows, from, n, categories)[k];
      && from <= MonthIndex(b.month) < from + n && b.month == MonthAt(MonthIndex(b.month))
      && b.category in categories && b.total == CellTotal(rows, MonthIndex(b.month), b.category)
  {
    var above := Grid(rows, from, n - 1, categories);
    if k < |above| {
      GridMembers(rows, from, n - 1, categories, k);
    } else {
      MonthAtIndex(from + n - 1);
      assert Grid(rows, from, n, categories)[k] == Line(rows, from + n - 1, categories)[k - |above|];
    }
  }

  /** No cell is repeated. */
  lemma {:induction false} GridKeysDiffer(
    rows: seq<Expense>, from: int, n: nat, categories: seq<Category>, k: nat, l: nat)
    requires Ascending(categories) && k < l < |Grid(rows, from, n, categories)|
    ensures KeyOf(Grid(rows, from, n, categories)[k]) != KeyOf(Grid(rows, from, n, categories)[l])
  {
    var above := Grid(rows, from, n - 1, categories);
    if l < |above| {
      GridKeysDiffer(rows, from, n - 1, categories, k, l);
    } else {
      LineKeys(rows, from, n, categories, l);
      if k < |above| {
        GridMembers(rows, from, n - 1, categories, k);
      } else {
        LineKeys(rows, from, n, categories, k);
      }
    }
  }

  lemma LineKeys(rows: seq<Expense>, from: int, n: nat, categories: seq<Category>, k: nat)
    requires n > 0 && |Grid(rows, from, n - 1, categories)| <= k < |Grid(rows, from, n, categories)|
    ensures 0 <= k - |Grid(rows, from, n - 1, categories)| < |categories|
    ensures Grid(rows, from, n, categories)[k].category == categories[k - |Grid(rows, from, n - 1, categories)|]
    ensures MonthIndex(Grid(rows, from, n, categories)[k].month) == from + n - 1
  {
    MonthAtIndex(from + n - 1);
    var above, line := Grid(rows, from, n - 1, categories), Line(rows, from + n - 1, categories);
    forall j | 0 <= j < |line| ensures line[j].month == MonthAt(from + n - 1) && line[j].category == categories[j] {
    }
    hide Line, MonthAt, MonthIndex;
    assert Grid(rows, from, n, categories) == above + line;
  }

  lemma {:induction false} GridHasCell(
    rows: seq<Expense>, from: int, n: nat, categories: seq<Category>, index: int, c: Category)
    requires from <= index < from + n && c in categories
    ensures exists k | 0 <= k < |Grid(rows, from, n, categories)| ::
      KeyOf(Grid(rows, from, n, categories)[k]) == (MonthAt(index), c)
  {
    var j :| 0 <= j < |categories| && categories[j] == c;
    GridCell(rows, from, n, categories, index - from, j);
    var k := (index - from) * |categories| + j;
    assert KeyOf(Grid(rows, from, n, categories)[k]) == (MonthAt(index), c);
  }

  predicate OnlyAt(buckets: seq<TrendBucket>, k: int, key: (Date, Category)) {
    && 0 <= k < |buckets| && KeyOf(buckets[k]) == key
    && forall l | 0 <= l < |buckets| && l != k :: KeyOf(buckets[l]) != key
  }

  /** Every expense of the window is counted in exactly one bucket: the one of its month and category. */
  lemma {:induction false} EachExpenseHasOneBucket(
    rows: seq<Expense>, user: UserId, anchor: Date, months: int, categories: seq<Category>, e: Expense)
    requires Valid(anchor) && Dated(rows) && Window(anchor, months).Some?
    requires SpentIn(categories, Select(rows, user, Window(anchor, months).value))
    requires e in Select(rows, user, Window(anchor, months).value)
    ensures
      var selected := Select(rows, user, Window(anchor, months).value);
      var buckets := Grid(selected, FirstIndex(anchor, months), ClampMonths(months), categories);
      exists k :: OnlyAt(buckets, k, (FirstOfMonth(e.date), e.category))
  {
    var selected := Select(rows, user, Window(anchor, months).value);
    var from, n := FirstIndex(anchor, months), ClampMonths(months);
    SelectedAreInTheWindow(rows, user, anchor, months);
    var at :| 0 <= at < |selected| && selected[at] == e;
    assert SpentOn(selected, e.category);
    FirstOfIndexedMonth(e.date);
    OneBucket(selected, from, n, categories, MonthIndex(e.date), e.category);
  }

  lemma OneBucket(rows: seq<Expense>, from: int, n: nat, categories: seq<Category>, index: int, c: Category)
    requires Ascending(categories) && from <= index < from + n && c in categories
    ensures exists k :: OnlyAt(Grid(rows, from, n, categories), k, (MonthAt(index), c))
  {
    var buckets := Grid(rows, from, n, categories);
    GridHasCell(rows, from, n, categories, index, c);
    var k :| 0 <= k < |buckets| && KeyOf(buckets[k]) == (MonthAt(index), c);
    forall l | 0 <= l < |buckets| && l != k ensures KeyOf(buckets[l]) != KeyOf(buckets[k]) {
      if l < k {
        GridKeysDiffer(rows, from, n, categories, l, k);
      } else {
        GridKeysDiffer(rows, from, n, categories, k, l);
      }
    }
    assert OnlyAt(buckets, k, (MonthAt(index), c));
  }

  // ----- the views agree ----------------------------------------------------

  /** One month's query selects exactly the rows of the window that fall in that month. */
  lemma {:induction false} MonthIsASliceOfTheWindow(
    rows: seq<Expense>, user: UserId, anchor: Date, months: int, index: int)
    requires Valid(anchor) && Dated(rows) && Window(anchor, months).Some?
    requires FirstIndex(anchor, months) <= index <= MonthIndex(anchor)
    ensures MonthBounds(MonthAt(index)).Some?
    ensures OfMonth(Select(rows, user, Window(anchor, months).value), index)
         == Select(rows, user, MonthBounds(MonthAt(index)).value)
  {
    if rows != [] {
      var init, last := rows[..|rows| - 1], rows[|rows| - 1];
      MonthIsASliceOfTheWindow(init, user, anchor, months, index);
      var window := Select(init, user, Window(anchor, months).value);
      WindowIsMonths(anchor, months, last.date);
      MonthAtIndex(index);
      MonthBoundsHoldTheMonth(MonthAt(index), last.date);
      SameMonthIffIndex(last.date, MonthAt(index));
      if Selects(user, Window(anchor, months).value, last) {
        assert (window + [last])[..|window|] == window;
      } else {
        assert window + [] == window;
      }
    }
  }

  function TotalOf(items: seq<CategoryTotal>, c: Category): int {
    if items == [] then 0 else if items[0].category == c then items[0].total else TotalOf(items[1..], c)
  }

  lemma {:induction false} TotalOfIsSpend(items: seq<CategoryTotal>, rows: seq<Expense>, c: Category)
    requires forall i | 0 <= i < |items| :: items[i].total == Sum(OfCategory(rows, items[i].category))
    requires OfCategory(rows, c) != [] ==> c in CategoriesOf(items)
    ensures TotalOf(items, c) == Sum(OfCategory(rows, c))
  {
    if items != [] && items[0].category != c {
      assert CategoriesOf(items) == [items[0].category] + CategoriesOf(items[1..]);
      TotalOfIsSpend(items[1..], rows, c);
    }
  }

  lemma BreakdownTotal(answer: seq<CategoryTotal>, rows: seq<Expense>, c: Category)
    requires AnswersBreakdown(answer, rows)
    ensures TotalOf(answer, c) == Sum(OfCategory(rows, c))
  {
    OfCategoryMembers(rows, c);
    if OfCategory(rows, c) != [] {
      assert OfCategory(rows, c)[0] in rows;
    }
    TotalOfIsSpend(answer, rows, c);
  }

  /** For every month of the window the trend buckets add up to the breakdown's grand total, and each
      category's bucket is its breakdown total (zero when the breakdown does not list it). */
  lemma {:induction false} TrendsAgreeWithBreakdown(
    rows: seq<Expense>, user: UserId, anchor: Date, months: int, categories: seq<Category>,
    index: int, answer: seq<CategoryTotal>)
    requires Valid(anchor) && Dated(rows) && Window(anchor, months).Some?
    requires SpentIn(categories, Select(rows, user, Window(anchor, months).value))
    requires FirstIndex(anchor, months) <= index <= MonthIndex(anchor)
    requires MonthBounds(MonthAt(index)).Some?
    requires AnswersBreakdown(answer, Select(rows, user, MonthBounds(MonthAt(index)).value))
    ensures
      var line := Line(Select(rows, user, Window(anchor, months).value), index, categories);
      && SumBuckets(line) == Breakdown(MonthAt(index), answer).value.grandTotal
      && forall j | 0 <= j < |line| :: line[j].total == TotalOf(answer, line[j].category)
  {
    var selected := Select(rows, user, Window(anchor, months).value);
    var month := Select(rows, user, MonthBounds(MonthAt(index)).value);
    MonthIsASliceOfTheWindow(rows, user, anchor, months, index);
    SpentInCovers(categories, selected);
    LineIsTheMonth(selected, index, categories);
    GrandTotalIsTheMonth(MonthAt(index), answer, month);
    forall c ensures TotalOf(answer, c) == CellTotal(selected, index, c) {
      BreakdownTotal(answer, month, c);
    }
  }
}
