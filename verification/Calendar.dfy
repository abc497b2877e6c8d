/** Calendar dates, their ISO text, and the month arithmetic of the analytics views. */
module Calendar {
  import opened Domain
  import opened Text

  datatype Date = Date(year: int, month: int, day: int)

  predicate IsLeap(year: int) {
    year % 4 == 0 && (year % 100 != 0 || year % 400 == 0)
  }

  function DaysIn(year: int, month: int): int {
    if month == 2 then (if IsLeap(year) then 29 else 28)
    else if month == 4 || month == 6 || month == 9 || month == 11 then 30
    else 31
  }

  predicate Valid(d: Date) {
    1 <= d.year <= 9999 && 1 <= d.month <= 12 && 1 <= d.day <= DaysIn(d.year, d.month)
  }

  /** Every fourth year is a leap year, but of the century years only every fourth. */
  lemma {:induction false} LeapYears(year: int)
    ensures IsLeap(1600) && !IsLeap(1700) && !IsLeap(1800) && !IsLeap(1900) && IsLeap(2000) && !IsLeap(2100)
    ensures year % 100 != 0 ==> (IsLeap(year) <==> year % 4 == 0)
  {
  }

  /** A year has seven months of 31 days, four of 30, and February. */
  lemma {:induction false} MonthLengths(year: int, month: int)
    requires 1 <= month <= 12
    ensures DaysIn(year, month) ==
      if month in {1, 3, 5, 7, 8, 10, 12} then 31
      else if month in {4, 6, 9, 11} then 30
      else if IsLeap(year) then 29 else 28
  {
  }

  /** Earlier in the calendar. */
  predicate Before(a: Date, b: Date) {
    || a.year < b.year
    || (a.year == b.year && a.month < b.month)
    || (a.year == b.year && a.month == b.month && a.day < b.day)
  }

  predicate AtOrAfter(a: Date, b: Date) {
    !Before(a, b)
  }

  // ----- ISO text -----------------------------------------------------------

  function IsoFormat(d: Date): (s: string)
    requires Valid(d)
    ensures |s| == 10
  {
    PrintFixed(d.year, 10, 4) + "-" + PrintFixed(d.month, 10, 2) + "-" + PrintFixed(d.day, 10, 2)
  }

  /** date.fromisoformat on the extended form YYYY-MM-DD. */
  function FromIso(s: string): (r: Option<Date>)
    ensures r.Some? ==> Valid(r.value)
  {
    if |s| != 10 || s[4] != '-' || s[7] != '-' then None
    else if !AllDecimal(s[..4]) || !AllDecimal(s[5..7]) || !AllDecimal(s[8..]) then None
    else
      match (ParseDigits(s[..4], 10), ParseDigits(s[5..7], 10), ParseDigits(s[8..], 10))
      case (Some(y), Some(m), Some(d)) => if Valid(Date(y, m, d)) then Some(Date(y, m, d)) else None
      case _ => None
  }

  lemma {:induction false} IsoRoundTrip(d: Date)
    requires Valid(d)
    ensures FromIso(IsoFormat(d)) == Some(d)
  {
    var y, m, dd := PrintFixed(d.year, 10, 4), PrintFixed(d.month, 10, 2), PrintFixed(d.day, 10, 2);
    var s := IsoFormat(d);
    assert s[..4] == y && s[5..7] == m && s[8..] == dd;
    assert Pow(10, 4) == 10000 by { assert Pow(10, 2) == 100; assert Pow(10, 3) == 1000; }
    assert Pow(10, 2) == 100;
    FixedRoundTrip(d.year, 10, 4);
    FixedRoundTrip(d.month, 10, 2);
    FixedRoundTrip(d.day, 10, 2);
    FixedDecimal(d.year, 4);
    FixedDecimal(d.month, 2);
    FixedDecimal(d.day, 2);
  }

  // ----- months -------------------------------------------------------------

  function FirstOfMonth(d: Date): Date {
    d.(day := 1)
  }

  /** Months since the start of the calendar; consecutive months differ by one. */
  function MonthIndex(d: Date): int {
    12 * d.year + d.month - 1
  }

  predicate SameMonth(a: Date, b: Date) {
    a.year == b.year && a.month == b.month
  }

  /** The half-open interval of a month. The month after December 9999 does not exist. */
  function MonthBounds(month: Date): Option<(Date, Date)> {
    var start := FirstOfMonth(month);
    if start.month == 12
    then (if start.year == 9999 then None else Some((start, Date(start.year + 1, 1, 1))))
    else Some((start, Date(start.year, start.month + 1, 1)))
  }

  predicate Within(d: Date, bounds: (Date, Date)) {
    AtOrAfter(d, bounds.0) && Before(d, bounds.1)
  }

  /** The interval holds exactly the days of the month. */
  lemma {:induction false} MonthBoundsHoldTheMonth(month: Date, d: Date)
    requires Valid(month) && Valid(d) && MonthBounds(month).Some?
    ensures Within(d, MonthBounds(month).value) <==> SameMonth(d, month)
  {
  }

  /** The first day of the month with a given index. */
  function MonthAt(index: int): Date {
    Date(index / 12, index % 12 + 1, 1)
  }

  lemma MonthAtIndex(index: int)
    ensures MonthIndex(MonthAt(index)) == index
  {
  }

  /** The first of the month `n` months before `anchor`; None where the calendar starts at year 1. */
  method MonthsBack(anchor: Date, n: nat) returns (r: Option<Date>)
    requires Valid(anchor)
    ensures r == if MonthAt(MonthIndex(anchor) - n).year >= 1 then Some(MonthAt(MonthIndex(anchor) - n)) else None
    ensures r.Some? ==> MonthIndex(r.value) == MonthIndex(anchor) - n && r.value.day == 1 && Valid(r.value)
  {
    var year := anchor.year;
    var month := anchor.month - n;
    while month <= 0
      invariant month <= 12 && 12 * year + month - 1 == MonthIndex(anchor) - n
      decreases -month
    {
      month := month + 12;
      year := year - 1;
    }
    r := if year >= 1 then Some(Date(year, month, 1)) else None;
  }

  /** Tiling: the month n+1 back ends where the month n back starts. */
  lemma {:induction false} MonthsTile(index: int)
    requires 12 <= index && index + 1 < 12 * 10000
    ensures MonthBounds(MonthAt(index)) == Some((MonthAt(index), MonthAt(index + 1)))
    ensures Before(MonthAt(index), MonthAt(index + 1))
  {
  }

  lemma SameMonthIffIndex(a: Date, b: Date)
    requires Valid(a) && Valid(b)
    ensures SameMonth(a, b) <==> MonthIndex(a) == MonthIndex(b)
  {
  }
}
