/** Expense rows as the analytics and the list read them, and sums over selections of rows.
    Amounts are whole cents: the columns are NUMERIC(12, 2). */
module Ledger {
  import opened Domain
  import opened Calendar

  datatype Expense = Expense(id: nat, owner: UserId, merchant: string, amount: int, category: Category, date: Date)

  /** The WHERE clause every aggregate shares: one user, a half-open interval of days. */
  predicate Selects(user: UserId, bounds: (Date, Date), e: Expense) {
    e.owner == user && Within(e.date, bounds)
  }

  function Select(rows: seq<Expense>, user: UserId, bounds: (Date, Date)): (s: seq<Expense>)
    ensures forall e :: e in s <==>
      e in rows && e.owner == user && !Before(e.date, bounds.0) && Before(e.date, bounds.1)
  {
    if rows == [] then []
    else
      var init, last := rows[..|rows| - 1], rows[|rows| - 1];
      assert rows == init + [last];
      Select(init, user, bounds) + if Selects(user, bounds, last) then [last] else []
  }

  /** A selected row is taken as often as the table holds it. */
  lemma {:induction false} SelectKeepsCounts(rows: seq<Expense>, user: UserId, bounds: (Date, Date), e: Expense)
    ensures multiset(Select(rows, user, bounds))[e]
      == if e.owner == user && !Before(e.date, bounds.0) && Before(e.date, bounds.1) then multiset(rows)[e] else 0
  {
    if rows != [] {
      var init, last := rows[..|rows| - 1], rows[|rows| - 1];
      SelectKeepsCounts(init, user, bounds, e);
      assert rows == init + [last];
    }
  }

  lemma {:induction false} OfCategoryKeepsCounts(rows: seq<Expense>, c: Category, e: Expense)
    ensures multiset(OfCategory(rows, c))[e] == if e.category == c then multiset(rows)[e] else 0
  {
    if rows != [] {
      var init, last := rows[..|rows| - 1], rows[|rows| - 1];
      OfCategoryKeepsCounts(init, c, e);
      assert rows == init + [last];
    }
  }

  lemma {:induction false} OfMonthKeepsCounts(rows: seq<Expense>, index: int, e: Expense)
    ensures multiset(OfMonth(rows, index))[e]
      == if 12 * e.date.year + e.date.month - 1 == index then multiset(rows)[e] else 0
  {
    if rows != [] {
      var init, last := rows[..|rows| - 1], rows[|rows| - 1];
      OfMonthKeepsCounts(init, index, e);
      assert rows == init + [last];
    }
  }

  function OfMonth(rows: seq<Expense>, index: int): seq<Expense> {
    if rows == [] then []
    else
      var init, last := rows[..|rows| - 1], rows[|rows| - 1];
      OfMonth(init, index) + if MonthIndex(last.date) == index then [last] else []
  }

  function OfCategory(rows: seq<Expense>, c: Category): seq<Expense> {
    if rows == [] then []
    else
      var init, last := rows[..|rows| - 1], rows[|rows| - 1];
      OfCategory(init, c) + if last.category == c then [last] else []
  }

  function Sum(rows: seq<Expense>): int {
    if rows == [] then 0 else Sum(rows[..|rows| - 1]) + rows[|rows| - 1].amount
  }

  lemma SumSnoc(rows: seq<Expense>, e: Expense)
    ensures Sum(rows + [e]) == Sum(rows) + e.amount
  {
    assert (rows + [e])[..|rows|] == rows;
  }

  lemma {:induction false} OfMonthMembers(rows: seq<Expense>, index: int)
    ensures forall e :: e in OfMonth(rows, index) <==> e in rows && MonthIndex(e.date) == index
  {
    if rows != [] {
      OfMonthMembers(rows[..|rows| - 1], index);
      assert rows == rows[..|rows| - 1] + [rows[|rows| - 1]];
    }
  }

  lemma {:induction false} OfCategoryMembers(rows: seq<Expense>, c: Category)
    ensures forall e :: e in OfCategory(rows, c) <==> e in rows && e.category == c
  {
    if rows != [] {
      OfCategoryMembers(rows[..|rows| - 1], c);
      assert rows == rows[..|rows| - 1] + [rows[|rows| - 1]];
    }
  }

  // ----- partitions ---------------------------------------------------------

  predicate Distinct<T(==)>(s: seq<T>) {
    forall i, j | 0 <= i < j < |s| :: s[i] != s[j]
  }

  /** The sum over some categories, one after the other. */
  function SumByCategory(rows: seq<Expense>, categories: seq<Category>): int {
    if categories == [] then 0
    else SumByCategory(rows, categories[1..]) + Sum(OfCategory(rows, categories[0]))
  }

  function CountByCategory(rows: seq<Expense>, categories: seq<Category>): int {
    if categories == [] then 0
    else CountByCategory(rows, categories[1..]) + |OfCategory(rows, categories[0])|
  }

  lemma CategorySnoc(rows: seq<Expense>, e: Expense, c: Category)
    ensures Sum(OfCategory(rows + [e], c)) == Sum(OfCategory(rows, c)) + if e.category == c then e.amount else 0
    ensures |OfCategory(rows + [e], c)| == |OfCategory(rows, c)| + if e.category == c then 1 else 0
  {
    assert (rows + [e])[..|rows|] == rows;
    SumSnoc(OfCategory(rows, c), e);
    assert OfCategory(rows, c) + [] == OfCategory(rows, c);
  }

  lemma {:induction false} OneMoreRow(rows: seq<Expense>, e: Expense, categories: seq<Category>)
    requires Distinct(categories)
    ensures SumByCategory(rows + [e], categories)
         == SumByCategory(rows, categories) + if e.category in categories then e.amount else 0
    ensures CountByCategory(rows + [e], categories)
         == CountByCategory(rows, categories) + if e.category in categories then 1 else 0
  {
    if categories != [] {
      OneMoreRow(rows, e, categories[1..]);
      CategorySnoc(rows, e, categories[0]);
      FirstIsNew(categories, e.category);
    }
  }

  lemma FirstIsNew<T>(s: seq<T>, x: T)
    requires s != [] && Distinct(s)
    ensures s[0] !in s[1..] && (x in s <==> x == s[0] || x in s[1..])
  {
    assert s == [s[0]] + s[1..];
  }

  lemma {:induction false} NothingToSum(categories: seq<Category>)
    ensures SumByCategory([], categories) == 0 && CountByCategory([], categories) == 0
  {
    if categories != [] { NothingToSum(categories[1..]); }
  }

  /** Each row falls in exactly one category, so the parts add up to the whole. */
  lemma {:induction false} CategoriesPartition(rows: seq<Expense>, categories: seq<Category>)
    requires Distinct(categories) && forall i | 0 <= i < |rows| :: rows[i].category in categories
    ensures SumByCategory(rows, categories) == Sum(rows)
    ensures CountByCategory(rows, categories) == |rows|
  {
    if rows == [] {
      NothingToSum(categories);
    } else {
      var init, last := rows[..|rows| - 1], rows[|rows| - 1];
      CategoriesPartition(init, categories);
      OneMoreRow(init, last, categories);
      assert rows == init + [last];
    }
  }

  /** The sum over `n` months from month `from`. */
  function SumByMonth(rows: seq<Expense>, from: int, n: nat): int {
    if n == 0 then 0 else SumByMonth(rows, from, n - 1) + Sum(OfMonth(rows, from + n - 1))
  }

  lemma MonthSnoc(rows: seq<Expense>, e: Expense, index: int)
    ensures Sum(OfMonth(rows + [e], index))
      == Sum(OfMonth(rows, index)) + if MonthIndex(e.date) == index then e.amount else 0
  {
    assert (rows + [e])[..|rows|] == rows;
    SumSnoc(OfMonth(rows, index), e);
    assert OfMonth(rows, index) + [] == OfMonth(rows, index);
  }

  lemma {:induction false} OneMoreRowInMonths(rows: seq<Expense>, e: Expense, from: int, n: nat)
    ensures SumByMonth(rows + [e], from, n)
         == SumByMonth(rows, from, n) + if from <= MonthIndex(e.date) < from + n then e.amount else 0
  {
    hide MonthIndex, OfMonth;
    if n != 0 {
      OneMoreRowInMonths(rows, e, from, n - 1);
      MonthSnoc(rows, e, from + n - 1);
    }
  }

  lemma {:induction false} NoMonthsToSum(from: int, n: nat)
    ensures SumByMonth([], from, n) == 0
  {
    if n != 0 { NoMonthsToSum(from, n - 1); }
  }

  predicate InMonths(rows: seq<Expense>, from: int, n: nat) {
    forall i | 0 <= i < |rows| :: from <= MonthIndex(rows[i].date) < from + n
  }

  lemma {:induction false} MonthsPartition(rows: seq<Expense>, from: int, n: nat)
    requires InMonths(rows, from, n)
    ensures SumByMonth(rows, from, n) == Sum(rows)
  {
    if rows == [] {
      NoMonthsToSum(from, n);
    } else {
      var init, last := rows[..|rows| - 1], rows[|rows| - 1];
      MonthsPartition(init, from, n);
      OneMoreRowInMonths(init, last, from, n);
      assert rows == init + [last];
    }
  }
}
