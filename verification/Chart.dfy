/** The chart pivot: one record a month, one entry a category. */
module Chart {
  import opened Domain
  import opened Calendar
  import opened Ledger
  import opened Insights
  import Money
  import Text

  // A bucket as it arrives in JSON.
  datatype Cell = Cell(month: string, category: string, total: string)

  type Record = map<string, string>

  /** The record of one month: the entry of the last bucket for each category. */
  function RecordOf(month: string, cells: seq<Cell>): Record {
    if cells == [] then map["month" := month]
    else
      var init, last := cells[..|cells| - 1], cells[|cells| - 1];
      if last.month == month then RecordOf(month, init)[last.category := last.total] else RecordOf(month, init)
  }

  /** Filling the records in place. None is the TypeError of a bucket outside the months. */
  method Pivot(months: seq<string>, cells: seq<Cell>) returns (r: Option<seq<Record>>)
    ensures r.None? <==> exists i | 0 <= i < |cells| :: cells[i].month !in months
    ensures r.Some? ==> r.value == seq(|months|, i requires 0 <= i < |months| => RecordOf(months[i], cells))
  {
    var byMonth: map<string, Record> := map[];
    for i := 0 to |months|
      invariant forall m :: m in byMonth <==> m in months[..i]
      invariant forall m <- byMonth :: byMonth[m] == RecordOf(m, [])
    {
      byMonth := byMonth[months[i] := map["month" := months[i]]];
    }
    assert months[..|months|] == months;
    for k := 0 to |cells|
      invariant forall m :: m in byMonth <==> m in months
      invariant forall i | 0 <= i < k :: cells[i].month in months
      invariant forall m <- byMonth :: byMonth[m] == RecordOf(m, cells[..k])
    {
      var cell := cells[k];
      if cell.month !in byMonth { return None; }
      assert cells[..k + 1][..k] == cells[..k];
      byMonth := byMonth[cell.month := byMonth[cell.month][cell.category := cell.total]];
    }
    assert cells[..|cells|] == cells;
    r := Some(seq(|months|, i requires 0 <= i < |months| => byMonth[months[i]]));
  }

  // ----- no cell is lost ----------------------------------------------------

  predicate OneCellPerKey(cells: seq<Cell>) {
    forall i, j | 0 <= i < j < |cells| :: cells[i].month != cells[j].month || cells[i].category != cells[j].category
  }

  predicate NoMonthCategory(cells: seq<Cell>) {
    forall i | 0 <= i < |cells| :: cells[i].category != "month"
  }

  lemma LastIsNew(cells: seq<Cell>)
    requires cells != [] && OneCellPerKey(cells)
    ensures forall cell <- cells[..|cells| - 1] ::
      cell.month != cells[|cells| - 1].month || cell.category != cells[|cells| - 1].category
  {
    var init := cells[..|cells| - 1];
    forall cell <- init ensures cell.month != cells[|cells| - 1].month || cell.category != cells[|cells| - 1].category {
      var i :| 0 <= i < |init| && init[i] == cell;
      assert cells[i] == cell;
    }
  }

  /** The pivot loses no cell and invents none: a record's entries are its label and exactly the
      buckets of its month. */
  lemma {:induction false} RecordHoldsItsCells(month: string, cells: seq<Cell>)
    requires OneCellPerKey(cells) && NoMonthCategory(cells)
    ensures "month" in RecordOf(month, cells) && RecordOf(month, cells)["month"] == month
    ensures forall c, t | c != "month" ::
      (c in RecordOf(month, cells) && RecordOf(month, cells)[c] == t) <==> Cell(month, c, t) in cells
  {
    if cells != [] {
      var init, last := cells[..|cells| - 1], cells[|cells| - 1];
      RecordHoldsItsCells(month, init);
      LastIsNew(cells);
      forall c, t ensures Cell(month, c, t) in cells <==> Cell(month, c, t) in init || Cell(month, c, t) == last {
        assert cells == init + [last];
      }
    }
  }

  /** Whatever the bucket order: the same buckets in another order give the same record. */
  lemma {:induction false} OrderDoesNotMatter(month: string, cells: seq<Cell>, shuffled: seq<Cell>)
    requires OneCellPerKey(cells) && NoMonthCategory(cells) && OneCellPerKey(shuffled)
    requires forall cell :: cell in cells <==> cell in shuffled
    ensures RecordOf(month, shuffled) == RecordOf(month, cells)
  {
    forall i | 0 <= i < |shuffled| ensures shuffled[i].category != "month" {
      assert shuffled[i] in cells;
    }
    RecordHoldsItsCells(month, cells);
    RecordHoldsItsCells(month, shuffled);
    var r, q := RecordOf(month, cells), RecordOf(month, shuffled);
    forall c ensures (c in r <==> c in q) && (c in r && c in q ==> r[c] == q[c]) {
      if c != "month" && c in r { assert Cell(month, c, r[c]) in shuffled; }
      if c != "month" && c in q { assert Cell(month, c, q[c]) in cells; }
    }
  }

  // ----- from the service to the chart --------------------------------------

  /** The wire value of a category. */
  function Value(c: Category): string {
    match c
    case FoodDining => "food_dining"
    case Groceries => "groceries"
    case Transportation => "transportation"
    case Shopping => "shopping"
    case Entertainment => "entertainment"
    case Utilities => "utilities"
    case Healthcare => "healthcare"
    case Housing => "housing"
    case Travel => "travel"
    case Education => "education"
    case Personal => "personal"
    case Other => "other"
  }

  lemma ValueIsInjective(a: Category, b: Category)
    ensures Value(a) == Value(b) ==> a == b
    ensures Value(a) != "month"
  {
    Signature(a);
    Signature(b);
    assert |"month"| == 5 && "month"[0] == 'm';
  }

  /** Length and first letter tell the categories apart. */
  lemma Signature(c: Category)
    ensures (|Value(c)|, Value(c)[0]) == match c
      case FoodDining => (11, 'f')
      case Groceries => (9, 'g')
      case Transportation => (14, 't')
      case Shopping => (8, 's')
      case Entertainment => (13, 'e')
      case Utilities => (9, 'u')
      case Healthcare => (10, 'h')
      case Housing => (7, 'h')
      case Travel => (6, 't')
      case Education => (9, 'e')
      case Personal => (8, 'p')
      case Other => (5, 'o')
  {
  }

  function AmountText(cents: int): string {
    if cents < 0 then "-" + Money.Print(-cents) else Money.Print(cents)
  }

  /** Earlier in the dictionary. */
  predicate Earlier(a: string, b: string) {
    b != "" && (a == "" || a[0] < b[0] || (a[0] == b[0] && Earlier(a[1..], b[1..])))
  }

  /** The categories of the answer are sorted by their wire values. */
  lemma {:induction false} RankIsAlphabetical(a: Category, b: Category)
    requires Rank(b) == Rank(a) + 1
    ensures Earlier(Value(a), Value(b))
  {
    Starts(a);
    Starts(b);
    if a.Transportation? {
      var x, y := Value(a), Value(b);
      assert x[2] == y[2] == 'a' && x[3] == 'n' && y[3] == 'v';
      assert x[2..][1..] == x[3..] && x[1..][1..] == x[2..] && y[2..][1..] == y[3..] && y[1..][1..] == y[2..];
      assert Earlier(x[3..], y[3..]) && Earlier(x[2..], y[2..]) && Earlier(x[1..], y[1..]);
    }
  }

  /** The first letters decide, or the first two. */
  lemma Starts(c: Category)
    ensures |Value(c)| >= 2
    ensures (Value(c)[0], Value(c)[1]) == match c
      case FoodDining => ('f', 'o')
      case Groceries => ('g', 'r')
      case Transportation => ('t', 'r')
      case Shopping => ('s', 'h')
      case Entertainment => ('e', 'n')
      case Utilities => ('u', 't')
      case Healthcare => ('h', 'e')
      case Housing => ('h', 'o')
      case Travel => ('t', 'r')
      case Education => ('e', 'd')
      case Personal => ('p', 'e')
      case Other => ('o', 't')
  {
  }

  /** Reading an amount back: an optional minus and a decimal. */
  function AmountOf(text: string): Option<int> {
    if text != "" && text[0] == '-' then
      match Money.Parse(text[1..])
      case Some(v) => Some(-(v as int))
      case None => None
    else
      match Money.Parse(text)
      case Some(v) => Some(v as int)
      case None => None
  }

  lemma {:induction false} AmountReadsBack(cents: int)
    ensures AmountOf(AmountText(cents)) == Some(cents)
  {
    hide Money.Parse, Money.Print;
    if cents < 0 {
      Money.RoundTrip(-cents);
      assert AmountText(cents)[1..] == Money.Print(-cents);
    } else {
      Money.RoundTrip(cents);
      FirstIsADigit(cents);
    }
  }

  lemma FirstIsADigit(cents: nat)
    ensures Money.Print(cents) != "" && Money.Print(cents)[0] != '-'
  {
    Text.NatRoundTrip(cents / 100);
    assert Text.IsDecimal(Text.PrintNat(cents / 100)[0]);
  }

  predicate InCalendar(buckets: seq<TrendBucket>) {
    forall i | 0 <= i < |buckets| :: Valid(buckets[i].month)
  }

  function CellOf(b: TrendBucket): Cell
    requires Valid(b.month)
  {
    Cell(IsoFormat(b.month), Value(b.category), AmountText(b.total))
  }

  function OnTheWire(buckets: seq<TrendBucket>): seq<Cell>
    requires InCalendar(buckets)
  {
    seq(|buckets|, i requires 0 <= i < |buckets| => CellOf(buckets[i]))
  }

  /** Distinct buckets stay distinct as text. */
  lemma WireKeysDiffer(buckets: seq<TrendBucket>)
    requires InCalendar(buckets) && forall i, j | 0 <= i < j < |buckets| :: KeyOf(buckets[i]) != KeyOf(buckets[j])
    ensures OneCellPerKey(OnTheWire(buckets)) && NoMonthCategory(OnTheWire(buckets))
  {
    var cells := OnTheWire(buckets);
    forall i, j | 0 <= i < j < |cells|
      ensures cells[i].month != cells[j].month || cells[i].category != cells[j].category
    {
      IsoRoundTrip(buckets[i].month);
      IsoRoundTrip(buckets[j].month);
      ValueIsInjective(buckets[i].category, buckets[j].category);
    }
    forall i | 0 <= i < |cells| ensures cells[i].category != "month" {
      ValueIsInjective(buckets[i].category, buckets[i].category);
    }
  }

  /** End to end: the record drawn for a month of the window shows, for every category with spend,
      the text of that month's and category's total. */
  lemma {:induction false} ChartShowsTheSpend(
    rows: seq<Expense>, from: int, n: nat, categories: seq<Category>, i: nat, j: nat)
    requires Ascending(categories) && i < n && j < |categories|
    requires InCalendar(Grid(rows, from, n, categories))
    ensures Valid(MonthAt(from + i))
    ensures
      var record := RecordOf(IsoFormat(MonthAt(from + i)), OnTheWire(Grid(rows, from, n, categories)));
      && Value(categories[j]) in record
      && AmountOf(record[Value(categories[j])]) == Some(CellTotal(rows, from + i, categories[j]))
  {
    hide AmountOf, AmountText, RecordOf, Value, IsoFormat;
    AmountReadsBack(CellTotal(rows, from + i, categories[j]));
    var buckets := Grid(rows, from, n, categories);
    forall k, l | 0 <= k < l < |buckets| ensures KeyOf(buckets[k]) != KeyOf(buckets[l]) {
      GridKeysDiffer(rows, from, n, categories, k, l);
    }
    WireKeysDiffer(buckets);
    GridCell(rows, from, n, categories, i, j);
    CellIsCharted(buckets, i * |categories| + j);
  }

  lemma CellIsCharted(buckets: seq<TrendBucket>, k: int)
    requires 0 <= k < |buckets| && InCalendar(buckets)
    requires OneCellPerKey(OnTheWire(buckets)) && NoMonthCategory(OnTheWire(buckets))
    ensures
      var record := RecordOf(IsoFormat(buckets[k].month), OnTheWire(buckets));
      && Value(buckets[k].category) in record
      && record[Value(buckets[k].category)] == AmountText(buckets[k].total)
  {
    RecordHoldsItsCells(IsoFormat(buckets[k].month), OnTheWire(buckets));
    assert OnTheWire(buckets)[k] == CellOf(buckets[k]);
    ValueIsInjective(buckets[k].category, buckets[k].category);
  }
}
