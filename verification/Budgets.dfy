/** Spend against budget for the current month. */
module Budgets {
  import opened Domain
  import opened Calendar
  import opened Ledger
  import Insights
  import Doubles

  const MAX_THRESHOLD: int := 200

  // An active monthly budget, as the list of a user's budgets yields it.
  datatype Budget = Budget(id: nat, category: Category, amount: int, threshold: int)

  datatype BudgetStatus = BudgetStatus(
    budget: nat, category: Category, amount: int, spent: int, remaining: int, ratio: real, threshold: int,
    alert: bool, period: (Date, Date))

  function BudgetedCategories(budgets: seq<Budget>): set<Category> {
    set i | 0 <= i < |budgets| :: budgets[i].category
  }

  /** The rows of the spend query: selected rows in a budgeted category. */
  function Budgeted(rows: seq<Expense>, categories: set<Category>): seq<Expense> {
    if rows == [] then []
    else
      var init, last := rows[..|rows| - 1], rows[|rows| - 1];
      Budgeted(init, categories) + if last.category in categories then [last] else []
  }

  lemma {:induction false} BudgetedKeepsCategory(rows: seq<Expense>, categories: set<Category>, c: Category)
    requires c in categories
    ensures OfCategory(Budgeted(rows, categories), c) == OfCategory(rows, c)
  {
    if rows != [] {
      var init, last := rows[..|rows| - 1], rows[|rows| - 1];
      BudgetedKeepsCategory(init, categories, c);
      var kept := Budgeted(init, categories);
      assert (kept + [last])[..|kept|] == kept;
      assert kept + [] == kept && OfCategory(init, c) + [] == OfCategory(init, c);
    }
  }

  function Get(spent: map<Category, int>, c: Category): int {
    if c in spent then spent[c] else 0
  }

  /** A decimal quotient turned into a double; a negative one is clamped to zero. */
  function Ratio(spent: int, amount: int): (ratio: real)
    ensures ratio >= 0.0
  {
    if amount > 0 && spent >= 0
    then Doubles.Double(Doubles.Decimal(Doubles.Over(spent as real, amount as real)))
    else 0.0
  }

  /** The float comparison: ratio * 100 >= threshold. */
  predicate Alerted(spent: int, amount: int, threshold: int) {
    Doubles.Double(Ratio(spent, amount) * 100.0) >= threshold as real
  }

  /** The threshold is passed, or reached at a percentage that is not one of the seven whose doubles
      fall short. */
  predicate Alerts(spent: int, amount: int, threshold: int) {
    || threshold <= 0
    || (amount > 0 && 100 * spent > threshold * amount)
    || (amount > 0 && 100 * spent == threshold * amount && threshold !in Doubles.SHORT)
  }

  /** The ratio is spent / amount up to one part in 2^52. */
  predicate IsNearly(ratio: real, spent: int, amount: int) {
    -(spent as real) <= Doubles.DOUBLE_LOW * (ratio * amount as real - spent as real) <= spent as real
  }

  /** What a status line must say about its budget. */
  predicate Reports(line: BudgetStatus, b: Budget, month: seq<Expense>, period: (Date, Date)) {
    && line.budget == b.id && line.category == b.category && line.amount == b.amount && line.threshold == b.threshold
    && line.period == period
    && line.spent == Sum(OfCategory(month, b.category))
    && line.spent + line.remaining == b.amount
    && (b.amount > 0 && line.spent >= 0 ==>
          line.ratio == Doubles.Double(Doubles.Decimal(Doubles.Over(line.spent as real, b.amount as real))))
    && (b.amount <= 0 || line.spent < 0 ==> line.ratio == 0.0)
    && (b.amount > 0 && line.spent >= 0 ==> IsNearly(line.ratio, line.spent, b.amount))
    && (b.threshold <= MAX_THRESHOLD && b.amount < AMOUNT_LIMIT ==>
          (line.alert <==> Alerts(line.spent, b.amount, b.threshold)))
  }

  lemma LineReports(line: BudgetStatus, b: Budget, month: seq<Expense>, period: (Date, Date))
    requires line.budget == b.id && line.category == b.category && line.amount == b.amount
    requires line.threshold == b.threshold && line.period == period
    requires line.spent == Sum(OfCategory(month, b.category)) && line.remaining == b.amount - line.spent
    requires line.ratio == Ratio(line.spent, b.amount)
    requires line.alert == Alerted(line.spent, b.amount, b.threshold)
    ensures Reports(line, b, month, period)
  {
    hide Ratio, IsNearly, Alerted, Alerts;
    RatioIsNearly(line.spent, b.amount);
    if b.threshold <= MAX_THRESHOLD && b.amount < AMOUNT_LIMIT {
      AlertIff(line.spent, b.amount, b.threshold);
    }
  }

  lemma RatioIsNearly(spent: int, amount: int)
    ensures amount > 0 && spent >= 0 ==>
      Ratio(spent, amount) == Doubles.Double(Doubles.Decimal(Doubles.Over(spent as real, amount as real)))
    ensures amount <= 0 || spent < 0 ==> Ratio(spent, amount) == 0.0
    ensures amount > 0 && spent >= 0 ==> IsNearly(Ratio(spent, amount), spent, amount)
  {
    hide Doubles.Double, Doubles.Decimal;
    if amount > 0 && spent >= 0 {
      Doubles.RatioIsNear(spent, amount);
    }
  }

  method Tally(rows: seq<Expense>) returns (spent: map<Category, int>)
    ensures forall c :: Get(spent, c) == Sum(OfCategory(rows, c))
  {
    spent := map[];
    for k := 0 to |rows|
      invariant forall c :: Get(spent, c) == Sum(OfCategory(rows[..k], c))
    {
      spent := spent[rows[k].category := Get(spent, rows[k].category) + rows[k].amount];
      assert rows[..k + 1] == rows[..k] + [rows[k]];
      forall c ensures Get(spent, c) == Sum(OfCategory(rows[..k + 1], c)) {
        CategorySnoc(rows[..k], rows[k], c);
      }
    }
    assert rows[..|rows|] == rows;
  }

  /** One line a budget, in the order of the list. None is the error of a month at the end of the calendar; with no
      budget there is no query. */
  method Status(answer: seq<Budget>, rows: seq<Expense>, user: UserId, today: Date)
    returns (r: Option<seq<BudgetStatus>>)
    requires Valid(today)
    ensures r.None? <==> answer != [] && MonthBounds(today).None?
    ensures r.Some? ==> |r.value| == |answer|
    ensures r.Some? && answer != [] ==>
      var period := MonthBounds(today).value;
      forall i | 0 <= i < |answer| :: Reports(r.value[i], answer[i], Select(rows, user, period), period)
  {
    if answer == [] { return Some([]); }
    if MonthBounds(today).None? { return None; }
    var period := MonthBounds(today).value;
    ghost var month := Select(rows, user, period);
    var categories := BudgetedCategories(answer);
    var spentByCategory := Tally(Budgeted(Select(rows, user, period), categories));
    var items := [];
    for i := 0 to |answer|
      invariant |items| == i
      invariant forall k | 0 <= k < i :: Reports(items[k], answer[k], month, period)
    {
      var b := answer[i];
      var spent := Get(spentByCategory, b.category);
      var ratio := Ratio(spent, b.amount);
      var line := BudgetStatus(
        b.id, b.category, b.amount, spent, b.amount - spent, ratio, b.threshold,
        Doubles.Double(ratio * 100.0) >= b.threshold as real, period);
      BudgetedKeepsCategory(month, categories, b.category);
      LineReports(line, b, month, period);
      items := items + [line];
    }
    r := Some(items);
  }

  /** The float comparison in whole cents, for every threshold and every amount the columns hold. */
  lemma {:induction false} AlertIff(spent: int, amount: int, threshold: int)
    requires threshold <= MAX_THRESHOLD && amount < AMOUNT_LIMIT
    ensures Alerted(spent, amount, threshold) <==> Alerts(spent, amount, threshold)
  {
    if amount > 0 && spent >= 0 && threshold > 0 {
      hide Doubles.Double, Doubles.Decimal, Doubles.Percent;
      WithinRange(threshold, amount);
      Doubles.PercentReaches(spent, amount, threshold);
      Doubles.PercentFallsShortIff(threshold);
    } else if amount > 0 && threshold > 0 {
      WithinRange(threshold, amount);
    }
  }

  lemma WithinRange(threshold: nat, amount: nat)
    requires threshold <= MAX_THRESHOLD && amount < AMOUNT_LIMIT
    ensures 0 <= threshold * amount <= 200000000000000
  {
    assert threshold * amount <= MAX_THRESHOLD * amount;
  }

  /** Spending 29.00 of 100.00 raises no alert at 29 percent. */
  lemma {:induction false} ReachedWithoutAlert()
    ensures !Alerted(2900, 10000, 29) && 100 * 2900 == 29 * 10000
  {
    AlertIff(2900, 10000, 29);
  }

  /** Two queries of different shape agree: a budget's spent is its category's total in the month's
      breakdown, zero when the breakdown does not list the category. */
  lemma {:induction false} StatusAgreesWithBreakdown(
    line: BudgetStatus, b: Budget, rows: seq<Expense>, user: UserId, today: Date, answer: seq<Insights.CategoryTotal>)
    requires Valid(today) && MonthBounds(today).Some?
    requires Reports(line, b, Select(rows, user, MonthBounds(today).value), MonthBounds(today).value)
    requires Insights.AnswersBreakdown(answer, Select(rows, user, MonthBounds(today).value))
    ensures line.spent == Insights.TotalOf(answer, b.category)
    ensures Insights.TotalOf(answer, b.category) + line.remaining == b.amount
  {
    Insights.BreakdownTotal(answer, Select(rows, user, MonthBounds(today).value), b.category);
  }
}
