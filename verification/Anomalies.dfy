/** The z-score filter: its statistics in exact arithmetic over cents, its scores in double precision.

    The guard of the query tests the unrounded deviation; the division uses the deviation rounded to
    two decimals. The two disagree for baselines that hardly vary. */
module Anomalies {
  import opened Domain
  import opened Calendar
  import opened Ledger
  import Money
  import Doubles

  const MIN_BASELINE_SAMPLES: nat := 5
  const MAX_ANOMALY_RESULTS: nat := 50
  const DEFAULT_THRESHOLD: real := 2.0

  // ----- sample statistics --------------------------------------------------

  function Total(xs: seq<int>): int {
    if xs == [] then 0 else Total(xs[..|xs| - 1]) + xs[|xs| - 1]
  }

  function TotalOfSquares(xs: seq<int>): int {
    if xs == [] then 0 else TotalOfSquares(xs[..|xs| - 1]) + xs[|xs| - 1] * xs[|xs| - 1]
  }

  /** n(n - 1) times the sample variance. */
  function Spread(xs: seq<int>): int {
    |xs| * TotalOfSquares(xs) - Total(xs) * Total(xs)
  }

  /** The sum of the squared distances to `y`. */
  function SquaresTo(xs: seq<int>, y: int): nat {
    if xs == [] then 0 else SquaresTo(xs[..|xs| - 1], y) + Square(xs[|xs| - 1] - y)
  }

  function Square(x: int): nat {
    x * x
  }

  lemma {:induction false} SquaresExpand(xs: seq<int>, y: int)
    ensures SquaresTo(xs, y) == TotalOfSquares(xs) - 2 * y * Total(xs) + |xs| * (y * y)
  {
    if xs != [] {
      var init, x := xs[..|xs| - 1], xs[|xs| - 1];
      SquaresExpand(init, y);
      OneMoreSquare(Total(init), TotalOfSquares(init), |init|, x, y);
    }
  }

  lemma OneMoreSquare(sum: int, squares: int, n: nat, x: int, y: int)
    ensures squares - 2 * y * sum + n * (y * y) + Square(x - y)
         == squares + x * x - 2 * y * (sum + x) + (n + 1) * (y * y)
  {
    assert (x - y) * (x - y) == x * x - 2 * y * x + y * y;
    assert 2 * y * (sum + x) == 2 * y * sum + 2 * y * x;
    assert (n + 1) * (y * y) == n * (y * y) + y * y;
  }

  /** The spread grows by the squared distances to the new amount. */
  lemma SpreadGrows(xs: seq<int>, y: int)
    ensures Spread(xs + [y]) == Spread(xs) + SquaresTo(xs, y)
  {
    SquaresExpand(xs, y);
    assert (xs + [y])[..|xs|] == xs;
    OneMoreAmount(|xs|, Total(xs), TotalOfSquares(xs), y);
  }

  lemma OneMoreAmount(n: nat, sum: int, squares: int, y: int)
    ensures (n + 1) * (squares + y * y) - (sum + y) * (sum + y)
         == n * squares - sum * sum + (squares - 2 * y * sum + n * (y * y))
  {
    assert (n + 1) * (squares + y * y) == n * squares + n * (y * y) + squares + y * y;
    assert (sum + y) * (sum + y) == sum * sum + 2 * y * sum + y * y;
  }

  predicate AllEqual(xs: seq<int>) {
    forall i, j | 0 <= i < |xs| && 0 <= j < |xs| :: xs[i] == xs[j]
  }

  lemma {:induction false} NoDistance(xs: seq<int>, y: int)
    ensures SquaresTo(xs, y) == 0 <==> forall i | 0 <= i < |xs| :: xs[i] == y
  {
    if xs != [] {
      NoDistance(xs[..|xs| - 1], y);
      var d := xs[|xs| - 1] - y;
      assert Square(d) == 0 <==> d == 0;
    }
  }

  /** n * (sum of squares) > (sum) squared exactly when two amounts differ; it is never smaller. */
  lemma {:induction false} SpreadIsPositiveIffAmountsDiffer(xs: seq<int>)
    ensures Spread(xs) >= 0
    ensures Spread(xs) > 0 <==> !AllEqual(xs)
  {
    if xs != [] {
      var init, y := xs[..|xs| - 1], xs[|xs| - 1];
      SpreadIsPositiveIffAmountsDiffer(init);
      assert xs == init + [y];
      SpreadGrows(init, y);
      NoDistance(init, y);
    }
  }

  // ----- rounding the deviation ---------------------------------------------

  /** r is the square root of q / d rounded half up. */
  predicate IsRoundedRoot(r: nat, q: int, d: int) {
    (r == 0 || Square(2 * r - 1) * d <= 4 * q) && 4 * q < Square(2 * r + 1) * d
  }

  function SearchRoot(q: nat, d: nat, r: nat): (root: nat)
    requires d > 0 && (r == 0 || Square(2 * r - 1) * d <= 4 * q)
    ensures IsRoundedRoot(root, q, d)
    decreases 4 * q - r
  {
    if 4 * q < Square(2 * r + 1) * d then r
    else
      OddSquareIsLarger(r, d);
      SearchRoot(q, d, r + 1)
  }

  lemma OddSquareIsLarger(r: nat, d: nat)
    requires d > 0
    ensures r < Square(2 * r + 1) * d
  {
    assert Square(2 * r + 1) == 4 * (r * r) + 4 * r + 1;
    assert Square(2 * r + 1) * d >= Square(2 * r + 1);
  }

  function RoundedRoot(q: nat, d: nat): (root: nat)
    requires d > 0
    ensures IsRoundedRoot(root, q, d)
  {
    SearchRoot(q, d, 0)
  }

  /** The rounded root vanishes exactly when the root is below one half. */
  lemma RootVanishes(q: nat, d: nat)
    requires d > 0
    ensures RoundedRoot(q, d) == 0 <==> 4 * q < d
  {
    var r := RoundedRoot(q, d);
    if r == 0 {
      assert Square(1) == 1;
    } else {
      AtLeastItself(2 * r - 1, d);
    }
  }

  lemma AtLeastItself(k: nat, d: nat)
    requires k >= 1
    ensures Square(k) * d >= d
  {
    assert k * k >= k;
    assert (Square(k) - 1) * d >= 0;
  }

  // ----- baselines ----------------------------------------------------------

  datatype Baseline = Baseline(mean: int, stddev: nat, samples: nat)

  function Pairs(xs: seq<int>): nat {
    if xs == [] then 0 else |xs| * (|xs| - 1)
  }

  /** The aggregate of one category, if the HAVING clause keeps it. */
  function BaselineOf(xs: seq<int>): Option<Baseline> {
    if |xs| >= MIN_BASELINE_SAMPLES && Spread(xs) > 0
    then Some(Baseline(Money.Nearest(Total(xs), |xs|), RoundedRoot(Spread(xs), Pairs(xs)), |xs|))
    else None
  }

  /** The total over the count, rounded to the cent; a tie goes away from zero. */
  predicate IsMean(mean: int, xs: seq<int>) {
    var twice := 2 * (|xs| * mean - Total(xs));
    && -|xs| <= twice <= |xs|
    && (Total(xs) >= 0 ==> -|xs| < twice) && (Total(xs) < 0 ==> twice < |xs|)
  }

  /** What a baseline must say about its amounts: their mean, their sample deviation and their number. */
  predicate Summarises(b: Baseline, xs: seq<int>) {
    |xs| >= 2 && IsMean(b.mean, xs) && IsRoundedRoot(b.stddev, Spread(xs), |xs| * (|xs| - 1)) && b.samples == |xs|
  }

  lemma {:induction false} BaselineSummarises(xs: seq<int>)
    ensures BaselineOf(xs).Some? ==> Summarises(BaselineOf(xs).value, xs)
  {
    if BaselineOf(xs).Some? {
      hide IsRoundedRoot, Spread, Total;
      var mean, n := BaselineOf(xs).value.mean, |xs|;
      assert mean * n == n * mean;
    }
  }

  /** The amounts have one summary only. */
  lemma {:induction false} SummaryIsUnique(a: Baseline, b: Baseline, xs: seq<int>)
    requires Summarises(a, xs) && Summarises(b, xs)
    ensures a == b
  {
    hide IsMean, IsRoundedRoot, Spread;
    Pairing(|xs|);
    MeanIsUnique(a.mean, b.mean, xs);
    MeanIsUnique(b.mean, a.mean, xs);
    RootIsUnique(a.stddev, b.stddev, Spread(xs), |xs| * (|xs| - 1));
    RootIsUnique(b.stddev, a.stddev, Spread(xs), |xs| * (|xs| - 1));
  }

  lemma MeanIsUnique(a: int, b: int, xs: seq<int>)
    requires xs != [] && IsMean(a, xs) && IsMean(b, xs)
    ensures a <= b
  {
    OneMore(a, b, |xs|);
  }

  lemma Pairing(n: nat)
    requires n >= 2
    ensures n * (n - 1) > 0
  {
  }

  lemma RootIsUnique(r: nat, s: nat, q: int, d: int)
    requires d > 0 && IsRoundedRoot(r, q, d) && IsRoundedRoot(s, q, d)
    ensures r <= s
  {
    if r > s {
      SquareGrows(2 * s + 1, 2 * r - 1);
      hide Square;
      TimesGrows(Square(2 * s + 1), Square(2 * r - 1), d);
    }
  }

  lemma TimesGrows(a: int, b: int, d: nat)
    requires a <= b
    ensures a * d <= b * d
  {
    assert (b - a) * d >= 0;
  }

  lemma SquareGrows(a: nat, b: nat)
    requires a <= b
    ensures Square(a) <= Square(b)
  {
    assert (b - a) * (b + a) >= 0;
  }

  /** The spread is what the squared distances to any centre add up to, n times, less the centre's own
      distance: at the mean, n times the sum of squared deviations. */
  lemma {:induction false} SpreadIsDeviation(xs: seq<int>, y: int)
    ensures |xs| * SquaresTo(xs, y) == Spread(xs) + Square(|xs| * y - Total(xs))
  {
    SquaresExpand(xs, y);
    Centred(|xs|, Total(xs), TotalOfSquares(xs), y);
  }

  lemma Centred(n: nat, sum: int, squares: int, y: int)
    ensures n * (squares - 2 * y * sum + n * (y * y)) == n * squares - sum * sum + Square(n * y - sum)
  {
    assert n * (squares - 2 * y * sum + n * (y * y)) == n * squares - 2 * (n * (y * sum)) + n * (n * (y * y));
    assert (n * y - sum) * (n * y - sum) == (n * y) * (n * y) - 2 * ((n * y) * sum) + sum * sum;
    assert (n * y) * (n * y) == n * (n * (y * y)) && (n * y) * sum == n * (y * sum);
  }

  /** A baseline is usable exactly when it has enough rows and they are not all the same amount. */
  lemma {:induction false} UsableIff(xs: seq<int>)
    ensures BaselineOf(xs).Some? <==> |xs| >= 5 && exists i, j | 0 <= i < |xs| && 0 <= j < |xs| :: xs[i] != xs[j]
  {
    SpreadIsPositiveIffAmountsDiffer(xs);
  }

  /** The guard lets through a zero divisor exactly when four times the spread is below n(n - 1). */
  lemma {:induction false} DivisorIsZeroIff(xs: seq<int>)
    ensures (BaselineOf(xs).Some? && BaselineOf(xs).value.stddev == 0)
      <==> |xs| >= 5 && 0 < Spread(xs) && 4 * Spread(xs) < |xs| * (|xs| - 1)
  {
    if BaselineOf(xs).Some? {
      RootVanishes(Spread(xs), Pairs(xs));
    }
  }

  function Repeat(x: int, n: nat): seq<int> {
    if n == 0 then [] else Repeat(x, n - 1) + [x]
  }

  lemma {:induction false} RepeatHasNoSpread(x: int, n: nat)
    ensures |Repeat(x, n)| == n && Spread(Repeat(x, n)) == 0
  {
    if n != 0 {
      RepeatHasNoSpread(x, n - 1);
      DistanceOfRepeat(x, n - 1, x);
      assert (n - 1) * Square(0) == 0;
      SpreadGrows(Repeat(x, n - 1), x);
    }
  }

  lemma {:induction false} DistanceOfRepeat(x: int, n: nat, y: int)
    ensures SquaresTo(Repeat(x, n), y) == n * Square(x - y)
  {
    if n != 0 {
      DistanceOfRepeat(x, n - 1, y);
      assert Repeat(x, n)[..|Repeat(x, n - 1)|] == Repeat(x, n - 1);
      OneMoreTime(n - 1, Square(x - y));
    }
  }

  lemma OneMoreTime(n: nat, k: nat)
    ensures (n + 1) * k == n * k + k
  {
  }

  /** A whole family that fails: a subscription charged the same amount every time but once, when it
      was one cent off. However long the history, the divisor is zero. */
  lemma {:induction false} OneCentOffDividesByZero(x: int, n: nat, off: int)
    requires n >= 4 && (off == 1 || off == -1)
    ensures
      var baseline := BaselineOf(Repeat(x, n) + [x + off]);
      baseline.Some? && baseline.value.stddev == 0
  {
    var xs := Repeat(x, n) + [x + off];
    RepeatHasNoSpread(x, n);
    DistanceOfRepeat(x, n, x + off);
    SpreadGrows(Repeat(x, n), x + off);
    OneCent(n, off);
    DivisorIsZeroIff(xs);
  }

  lemma OneCent(n: nat, off: int)
    requires n >= 4 && (off == 1 || off == -1)
    ensures n * Square(-off) == n && 4 * n < (n + 1) * n
  {
    assert Square(-off) == 1;
    assert n * n >= 4 * n;
    assert (n + 1) * n == n * n + n;
  }

  // ----- scores in double precision -----------------------------------------

  /** The quotient of two amounts cast to doubles; x and r are in cents. */
  function ZScore(x: int, r: nat): real
    requires r > 0
  {
    if x >= 0 then Doubles.Quotient(x, r) else -Doubles.Quotient(-x, r)
  }

  /** So many deviations of r cents. */
  function Deviations(z: real, r: nat): real {
    z * r as real
  }

  function Abs(x: real): (r: real)
    ensures r >= 0.0 && -r <= x <= r
  {
    if x >= 0.0 then x else -x
  }

  /** w is x up to one part in 2^51. */
  predicate IsNear(w: real, x: real) {
    Doubles.DOUBLE_LOW / 2.0 * Abs(w - x) <= Abs(x)
  }

  /** The bound is farther from x than one part in 2^51. */
  predicate IsApart(bound: real, x: real) {
    Doubles.DOUBLE_LOW / 2.0 * Abs(bound - x) > Abs(x)
  }

  /** A score is x / r up to one part in 2^51. */
  lemma {:induction false} ScoreIsNear(x: int, r: nat)
    requires r > 0
    ensures IsNear(Deviations(ZScore(x, r), r), x as real)
  {
    hide Doubles.Quotient;
    Doubles.QuotientIsNear(if x >= 0 then x else -x, r);
    if x < 0 {
      assert (-Doubles.Quotient(-x, r)) * r as real == -(Doubles.Quotient(-x, r) * r as real);
    }
  }

  /** The test against a threshold is exact for every amount farther from it than the rounding error. */
  lemma {:induction false} ThresholdIsExactApart(x: int, r: nat, threshold: real)
    requires r > 0 && IsApart(Deviations(threshold, r), x as real)
    ensures ZScore(x, r) >= threshold <==> x as real >= Deviations(threshold, r)
  {
    hide ZScore, IsNear, IsApart, Deviations;
    ScoreIsNear(x, r);
    DeviationsAscend(ZScore(x, r), threshold, r);
    SameSide(Deviations(ZScore(x, r), r), x as real, Deviations(threshold, r));
  }

  lemma DeviationsAscend(z: real, threshold: real, r: nat)
    requires r > 0
    ensures z >= threshold <==> Deviations(z, r) >= Deviations(threshold, r)
  {
    Doubles.Scaled(z, threshold, r as real);
  }

  lemma SameSide(w: real, x: real, bound: real)
    requires IsNear(w, x) && IsApart(bound, x)
    ensures w >= bound <==> x >= bound
  {
    assert Abs(w - x) < Abs(bound - x);
  }

  /** The default threshold of 2.0 is exact for all amounts. */
  lemma {:induction false} DefaultIsExact(x: int, r: nat)
    requires r > 0 && -2 * AMOUNT_LIMIT <= x <= 2 * AMOUNT_LIMIT
    ensures ZScore(x, r) >= DEFAULT_THRESHOLD <==> x >= 2 * r
  {
    if x == 2 * r {
      TwiceIsExact(r);
    } else {
      hide ZScore;
      ThresholdIsExactApart(x, r, DEFAULT_THRESHOLD);
    }
  }

  lemma TwiceIsExact(r: nat)
    requires r > 0
    ensures ZScore(2 * r, r) == 2.0
  {
    hide Doubles.Double;
    var b := Doubles.Double(r as real / 100.0);
    Doubles.DoublingIsExact(r as real / 100.0);
    assert (2 * r) as real / 100.0 == 2.0 * (r as real / 100.0);
    Doubles.DoubleIsNear(r as real / 100.0);
    Doubles.Divides(2.0, b, 2.0 * b);
    Doubles.WholeIsDouble(2);
  }

  /** A difference of 0.30 over a deviation of 0.10 scores less than 3. */
  lemma {:induction false} ThreeDeviationsScoreLess()
    ensures ZScore(30, 10) < 3.0
  {
    Doubles.ThirtyOverTen();
  }

  // ----- the report ---------------------------------------------------------

  // The two windows are [baselineStart, lookbackStart) and [lookbackStart, today].
  datatype Query =
    Query(user: UserId, baselineStart: Date, lookbackStart: Date, today: Date, threshold: real)

  datatype Anomaly = Anomaly(expense: Expense, z: real, baseline: Baseline)

  function Amounts(rows: seq<Expense>): seq<int> {
    seq(|rows|, i requires 0 <= i < |rows| => rows[i].amount)
  }

  /** The amounts of one category in the baseline window. */
  function BaselineAmounts(rows: seq<Expense>, q: Query, c: Category): seq<int> {
    Amounts(OfCategory(Select(rows, q.user, (q.baselineStart, q.lookbackStart)), c))
  }

  function BaselineFor(rows: seq<Expense>, q: Query, c: Category): Option<Baseline> {
    BaselineOf(BaselineAmounts(rows, q, c))
  }

  predicate InLookback(q: Query, e: Expense) {
    e.owner == q.user && AtOrAfter(e.date, q.lookbackStart) && !Before(q.today, e.date)
  }

  /** The database error: a joined row whose rounded deviation is zero. */
  predicate DividesByZero(rows: seq<Expense>, q: Query) {
    exists i | 0 <= i < |rows| :: InLookback(q, rows[i]) && ZeroDivisor(BaselineFor(rows, q, rows[i].category))
  }

  predicate ZeroDivisor(b: Option<Baseline>) {
    b.Some? && b.value.stddev == 0
  }

  /** The join and the filter for one row. */
  function Score(rows: seq<Expense>, q: Query, e: Expense): Option<Anomaly> {
    match BaselineFor(rows, q, e.category)
    case None => None
    case Some(b) =>
      if !InLookback(q, e) || b.stddev == 0 then None
      else
        var z := ZScore(e.amount - b.mean, b.stddev);
        if z >= q.threshold then Some(Anomaly(e, z, b)) else None
  }

  /** The scored rows among the first `k`. */
  function Scored(rows: seq<Expense>, q: Query, k: nat): seq<Anomaly>
    requires k <= |rows|
  {
    if k == 0 then [] else Scored(rows, q, k - 1) + AsList(Score(rows, q, rows[k - 1]))
  }

  function AsList(found: Option<Anomaly>): (s: seq<Anomaly>)
    ensures forall a :: a in s <==> found == Some(a)
  {
    match found case Some(a) => [a] case None => []
  }

  /** ORDER BY z DESC: the scored rows in some order of falling z. */
  ghost predicate RanksScored(ranked: seq<Anomaly>, rows: seq<Expense>, q: Query) {
    && multiset(ranked) == multiset(Scored(rows, q, |rows|))
    && forall i, j | 0 <= i < j < |ranked| :: ranked[i].z >= ranked[j].z
  }

  /** The response; None is the database error. */
  function Detect(rows: seq<Expense>, q: Query, ranked: seq<Anomaly>): Option<seq<Anomaly>> {
    if DividesByZero(rows, q) then None
    else Some(if |ranked| <= MAX_ANOMALY_RESULTS then ranked else ranked[..MAX_ANOMALY_RESULTS])
  }

  lemma {:induction false} ScoredMembers(rows: seq<Expense>, q: Query, k: nat, a: Anomaly)
    requires k <= |rows|
    ensures a in Scored(rows, q, k) <==> exists i | 0 <= i < k :: Score(rows, q, rows[i]) == Some(a)
  {
    hide Score, AsList;
    if k != 0 {
      ScoredMembers(rows, q, k - 1, a);
      OneMoreScored(rows, q, k, a);
    }
  }

  lemma OneMoreScored(rows: seq<Expense>, q: Query, k: nat, a: Anomaly)
    requires 0 < k <= |rows|
    ensures a in Scored(rows, q, k) <==> a in Scored(rows, q, k - 1) || Score(rows, q, rows[k - 1]) == Some(a)
  {
    hide Score, AsList;
  }

  lemma RankedMembers(ranked: seq<Anomaly>, rows: seq<Expense>, q: Query, a: Anomaly)
    requires RanksScored(ranked, rows, q)
    ensures a in ranked <==> exists i | 0 <= i < |rows| :: Score(rows, q, rows[i]) == Some(a)
  {
    ScoredMembers(rows, q, |rows|, a);
    assert a in ranked <==> a in multiset(ranked);
    assert a in Scored(rows, q, |rows|) <==> a in multiset(Scored(rows, q, |rows|));
  }

  predicate Qualifies(rows: seq<Expense>, q: Query, a: Anomaly) {
    && a.expense in rows && InLookback(q, a.expense) && a.z >= q.threshold
    && BaselineFor(rows, q, a.expense.category) == Some(a.baseline) && a.baseline.stddev > 0
    && a.z == ZScore(a.expense.amount - a.baseline.mean, a.baseline.stddev)
  }

  lemma ScoreQualifies(rows: seq<Expense>, q: Query, e: Expense)
    requires e in rows && Score(rows, q, e).Some?
    ensures Score(rows, q, e).value.expense == e && Qualifies(rows, q, Score(rows, q, e).value)
  {
    hide BaselineFor, InLookback, ZScore;
  }

  /** Every returned row is the user's, in the lookback window, and in a category with five or more
      amounts that differ; it comes with their mean, deviation and number, and with the score of its
      distance from that mean. */
  lemma {:induction false} ReturnedRowsQualify(rows: seq<Expense>, q: Query, ranked: seq<Anomaly>, a: Anomaly)
    requires RanksScored(ranked, rows, q) && !DividesByZero(rows, q)
    requires a in Detect(rows, q, ranked).value
    ensures Qualifies(rows, q, a)
    ensures a.expense in rows && a.expense.owner == q.user
    ensures !Before(a.expense.date, q.lookbackStart) && !Before(q.today, a.expense.date)
    ensures
      var xs := BaselineAmounts(rows, q, a.expense.category);
      && |xs| >= 5 && !AllEqual(xs) && Summarises(a.baseline, xs)
      && a.baseline.stddev > 0 && a.z == ZScore(a.expense.amount - a.baseline.mean, a.baseline.stddev)
      && a.z >= q.threshold
  {
    var xs := BaselineAmounts(rows, q, a.expense.category);
    BaselineSummarises(xs);
    UsableIff(xs);
    assert a in ranked;
    RankedMembers(ranked, rows, q, a);
    var i :| 0 <= i < |rows| && Score(rows, q, rows[i]) == Some(a);
    ScoreQualifies(rows, q, rows[i]);
  }

  /** At the default threshold the double-precision filter is the one on whole cents: a row of the
      lookback window qualifies exactly when it exceeds its category's mean by two deviations. */
  lemma {:induction false} DefaultFilterIff(rows: seq<Expense>, q: Query, e: Expense)
    requires q.threshold == DEFAULT_THRESHOLD && e in rows
    requires forall x <- rows :: -AMOUNT_LIMIT <= x.amount <= AMOUNT_LIMIT
    ensures
      var xs := BaselineAmounts(rows, q, e.category);
      forall b | Summarises(b, xs) ::
        Score(rows, q, e).Some? <==>
          && e.owner == q.user && !Before(e.date, q.lookbackStart) && !Before(q.today, e.date)
          && |xs| >= 5 && !AllEqual(xs)
          && b.stddev > 0 && e.amount >= b.mean + 2 * b.stddev
  {
    var xs := BaselineAmounts(rows, q, e.category);
    BaselineSummarises(xs);
    UsableIff(xs);
    forall b | Summarises(b, xs) ensures BaselineOf(xs).Some? ==> BaselineOf(xs) == Some(b) {
      if BaselineOf(xs).Some? { SummaryIsUnique(b, BaselineOf(xs).value, xs); }
    }
    DefaultScores(rows, q, e);
    hide BaselineAmounts, Score, Summarises, AllEqual, BaselineOf;
  }

  lemma DefaultScores(rows: seq<Expense>, q: Query, e: Expense)
    requires q.threshold == DEFAULT_THRESHOLD && e in rows
    requires forall x <- rows :: -AMOUNT_LIMIT <= x.amount <= AMOUNT_LIMIT
    ensures Score(rows, q, e).Some? <==>
      && InLookback(q, e) && BaselineFor(rows, q, e.category).Some?
      && var b := BaselineFor(rows, q, e.category).value;
         b.stddev > 0 && e.amount >= b.mean + 2 * b.stddev
  {
    hide InLookback, ZScore;
    if BaselineFor(rows, q, e.category).Some? && BaselineFor(rows, q, e.category).value.stddev > 0 {
      var b := BaselineFor(rows, q, e.category).value;
      MeanIsBounded(rows, q, e.category);
      hide BaselineFor;
      DefaultIsExact(e.amount - b.mean, b.stddev);
    }
  }

  lemma MeanIsBounded(rows: seq<Expense>, q: Query, c: Category)
    requires forall x <- rows :: -AMOUNT_LIMIT <= x.amount <= AMOUNT_LIMIT
    requires BaselineFor(rows, q, c).Some?
    ensures -AMOUNT_LIMIT <= BaselineFor(rows, q, c).value.mean <= AMOUNT_LIMIT
  {
    var mine := OfCategory(Select(rows, q.user, (q.baselineStart, q.lookbackStart)), c);
    OfCategoryMembers(Select(rows, q.user, (q.baselineStart, q.lookbackStart)), c);
    var xs := Amounts(mine);
    forall i | 0 <= i < |xs| ensures -AMOUNT_LIMIT <= xs[i] <= AMOUNT_LIMIT {
      assert mine[i] in rows;
    }
    TotalIsBounded(xs);
    NearestIsBounded(Total(xs), |xs|);
  }

  lemma {:induction false} TotalIsBounded(xs: seq<int>)
    requires forall i | 0 <= i < |xs| :: -AMOUNT_LIMIT <= xs[i] <= AMOUNT_LIMIT
    ensures -AMOUNT_LIMIT * |xs| <= Total(xs) <= AMOUNT_LIMIT * |xs|
  {
    if xs != [] { TotalIsBounded(xs[..|xs| - 1]); }
  }

  lemma NearestIsBounded(total: int, n: nat)
    requires n > 0 && -AMOUNT_LIMIT * n <= total <= AMOUNT_LIMIT * n
    ensures -AMOUNT_LIMIT <= Money.Nearest(total, n) <= AMOUNT_LIMIT
  {
    var q := Money.Nearest(total, n);
    hide Money.Nearest;
    OneMore(q, AMOUNT_LIMIT, n);
    OneMore(-q, AMOUNT_LIMIT, n);
  }

  lemma OneMore(q: int, bound: int, n: nat)
    ensures q > bound ==> q * n >= bound * n + n && n * q >= n * bound + n
  {
    if q > bound {
      TimesGrows(bound + 1, q, n);
      assert (bound + 1) * n == bound * n + n;
    }
  }

  /** At most fifty rows are returned. A qualifying row is left out only when fifty others are
      returned that all score at least as high. */
  lemma {:induction false} OmittedRowsAreBeaten(rows: seq<Expense>, q: Query, ranked: seq<Anomaly>, a: Anomaly)
    requires RanksScored(ranked, rows, q) && !DividesByZero(rows, q)
    requires Qualifies(rows, q, a)
    ensures
      var report := Detect(rows, q, ranked).value;
      && |report| <= 50
      && (a in report || (|report| == 50 && forall b <- report :: b.z >= a.z))
  {
    var report := Detect(rows, q, ranked).value;
    ScoreIsUnique(rows, q, a);
    var at :| 0 <= at < |rows| && rows[at] == a.expense;
    RankedMembers(ranked, rows, q, a);
    var j :| 0 <= j < |ranked| && ranked[j] == a;
    if j >= |report| {
      forall b | b in report ensures b.z >= a.z {
        var k :| 0 <= k < |report| && report[k] == b;
        assert ranked[k] == b;
      }
    } else {
      assert report[j] == a;
    }
  }

  /** The score of a row is determined: what qualifies is what the query computes. */
  lemma ScoreIsUnique(rows: seq<Expense>, q: Query, a: Anomaly)
    requires Qualifies(rows, q, a)
    ensures Score(rows, q, a.expense) == Some(a)
  {
    hide BaselineFor, InLookback, ZScore;
  }

  /** The report exists exactly when no row of the lookback window has, as its category's baseline,
      five or more amounts that differ, but by so little that four times their spread is below
      n(n - 1). */
  lemma {:induction false} ReportFailsIff(rows: seq<Expense>, q: Query, ranked: seq<Anomaly>)
    ensures Detect(rows, q, ranked).None? <==>
      exists i | 0 <= i < |rows| :: InLookback(q, rows[i]) && NearlyConstant(rows, q, rows[i].category)
  {
    forall c ensures ZeroDivisor(BaselineFor(rows, q, c)) <==> NearlyConstant(rows, q, c) {
      DivisorIsZeroIff(Amounts(OfCategory(Select(rows, q.user, (q.baselineStart, q.lookbackStart)), c)));
    }
  }

  predicate NearlyConstant(rows: seq<Expense>, q: Query, c: Category) {
    var xs := Amounts(OfCategory(Select(rows, q.user, (q.baselineStart, q.lookbackStart)), c));
    |xs| >= 5 && 0 < Spread(xs) && 4 * Spread(xs) < |xs| * (|xs| - 1)
  }

  // ----- the baseline never reads the lookback window -----------------------

  function Earlier(rows: seq<Expense>, start: Date): seq<Expense> {
    if rows == [] then []
    else
      var init, last := rows[..|rows| - 1], rows[|rows| - 1];
      Earlier(init, start) + if Before(last.date, start) then [last] else []
  }

  lemma {:induction false} SelectOnlyEarlier(rows: seq<Expense>, user: UserId, from: Date, start: Date)
    ensures Select(rows, user, (from, start)) == Select(Earlier(rows, start), user, (from, start))
  {
    if rows != [] {
      var init, last := rows[..|rows| - 1], rows[|rows| - 1];
      SelectOnlyEarlier(init, user, from, start);
      var kept := Earlier(init, start);
      assert (kept + [last])[..|kept|] == kept;
      assert kept + [] == kept;
    }
  }

  /** Two tables that agree on everything before the lookback window have the same baselines. */
  lemma {:induction false} BaselineIgnoresLookback(rows: seq<Expense>, others: seq<Expense>, q: Query, c: Category)
    requires Earlier(rows, q.lookbackStart) == Earlier(others, q.lookbackStart)
    ensures BaselineFor(rows, q, c) == BaselineFor(others, q, c)
  {
    SelectOnlyEarlier(rows, q.user, q.baselineStart, q.lookbackStart);
    SelectOnlyEarlier(others, q.user, q.baselineStart, q.lookbackStart);
  }
}
