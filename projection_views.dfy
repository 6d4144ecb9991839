/**
 * The two views the calculator derives from the month-by-month rows: the
 * results table (one row per year, or the first twelve months and the last
 * one) and the chart series (one point per year, or one per month).
 * The full row sequence stays the single source of truth; every view here
 * is a function of it.
 */
module ProjectionViews {
  import opened CompoundInterest

  function Min(a: int, b: int): int
  {
    if a <= b then a else b
  }

  /** Math.ceil(month / 12): the year a (1-based) month falls in. */
  function YearOf(month: nat): nat
  {
    (month + 11) / 12
  }

  /** The 0-based index of the first month of the year that `month` falls in. */
  function YearStart(month: nat): nat
    requires month >= 1
  {
    (YearOf(month) - 1) * 12
  }

  // ---------------------------------------------------------------------------
  // Selecting rows
  // ---------------------------------------------------------------------------

  /** The indices i < n with (i + 1) % 12 == 0, in order: the table's filter
      that keeps the last month of every complete year. */
  function YearEnds(n: nat): (r: seq<nat>)
    ensures |r| == n / 12
    ensures forall j :: 0 <= j < |r| ==> r[j] == 12 * j + 11
  {
    if n == 0 then []
    else YearEnds(n - 1) + (if n % 12 == 0 then [n - 1] else [])
  }

  /** The yearly table's rows: every year end, and the last row pushed after
      them only when the number of rows is not a multiple of 12. */
  function TableYearIndices(n: nat): (r: seq<nat>)
    ensures forall j :: 0 <= j < |r| ==> r[j] < n
  {
    YearEnds(n) + (if n % 12 != 0 then [n - 1] else [])
  }

  /** The chart's filter over i < k: keep i when (i + 1) % 12 == 0 or i is
      the last index n - 1. */
  function ChartIndicesBelow(n: nat, k: nat): (r: seq<nat>)
    requires k <= n
    ensures forall j :: 0 <= j < |r| ==> r[j] < k
  {
    if k == 0 then []
    else ChartIndicesBelow(n, k - 1) + (if k % 12 == 0 || k == n then [k - 1] else [])
  }

  /** The yearly chart's rows. */
  function ChartYearIndices(n: nat): (r: seq<nat>)
    ensures forall j :: 0 <= j < |r| ==> r[j] < n
  {
    ChartIndicesBelow(n, n)
  }

  /** The yearly table shows each year once, in order: exactly the rows that
      end a year and the last row, ceil(n / 12) of them, the j-th in year j + 1. */
  lemma TableYearIndicesSelection(n: nat)
    ensures var r := TableYearIndices(n);
      && |r| == YearOf(n)
      && (forall j, k :: 0 <= j < k < |r| ==> r[j] < r[k])
      && (forall j :: 0 <= j < |r| ==> YearOf(r[j] + 1) == j + 1)
      && (n > 0 ==> r[|r| - 1] == n - 1)
      && (forall i :: 0 <= i < n ==> (i in r <==> (i + 1) % 12 == 0 || i == n - 1))
  {
    TableYearIndicesCount(n);
    TableYearIndicesYears(n);
    TableYearIndicesMembers(n);
  }

  /** ceil(n / 12) rows, the last one being the last month. */
  lemma TableYearIndicesCount(n: nat)
    ensures var r := TableYearIndices(n);
      |r| == YearOf(n) && (n > 0 ==> r[|r| - 1] == n - 1)
  {
    var r := TableYearIndices(n);
    if n % 12 == 0 {
      assert (n + 11) / 12 == n / 12;
      if n > 0 {
        assert r[|r| - 1] == 12 * (n / 12 - 1) + 11;
      }
    } else {
      assert (n + 11) / 12 == n / 12 + 1;
    }
  }

  /** The selected rows increase and the j-th lies in year j + 1. */
  lemma TableYearIndicesYears(n: nat)
    ensures var r := TableYearIndices(n);
      && (forall j, k :: 0 <= j < k < |r| ==> r[j] < r[k])
      && (forall j :: 0 <= j < |r| ==> YearOf(r[j] + 1) == j + 1)
  {
    var e := YearEnds(n);
    var r := TableYearIndices(n);
    forall j | 0 <= j < |r|
      ensures YearOf(r[j] + 1) == j + 1
      ensures j < |e| ==> r[j] == 12 * j + 11
      ensures j == |e| ==> 12 * j <= r[j]
    {
      if j < |e| {
        assert r[j] == e[j] == 12 * j + 11;
        assert (12 * j + 11 + 1 + 11) / 12 == j + 1;
      } else {
        assert r[j] == n - 1 && n % 12 != 0;
        assert 12 * j <= n - 1 < 12 * j + 12;
        assert (n + 11) / 12 == j + 1;
      }
    }
  }

  /** A row is selected exactly when it ends a year or is the last one. */
  lemma TableYearIndicesMembers(n: nat)
    ensures var r := TableYearIndices(n);
      forall i :: 0 <= i < n ==> (i in r <==> (i + 1) % 12 == 0 || i == n - 1)
  {
    var e := YearEnds(n);
    var r := TableYearIndices(n);
    assert |e| == n / 12;
    forall i | 0 <= i < n && ((i + 1) % 12 == 0 || i == n - 1)
      ensures i in r
    {
      if (i + 1) % 12 == 0 {
        var j := i / 12;
        assert i == 12 * j + 11;
        assert 12 * (j + 1) <= n;
        assert e[j] == i;
      } else {
        assert n % 12 != 0;
        assert r[|r| - 1] == i;
      }
    }
  }

  lemma {:induction false} ChartBelowIsYearEnds(n: nat, k: nat)
    requires k < n
    ensures ChartIndicesBelow(n, k) == YearEnds(k)
  {
    if k > 0 {
      ChartBelowIsYearEnds(n, k - 1);
    }
  }

  /** The chart filter and the table's filter-then-push pick the same rows. */
  lemma ChartSelectsTableYears(n: nat)
    ensures ChartYearIndices(n) == TableYearIndices(n)
  {
    if n > 0 {
      ChartBelowIsYearEnds(n, n - 1);
    }
  }

  // ---------------------------------------------------------------------------
  // A year's interest
  // ---------------------------------------------------------------------------

  /** The interest earned in the rows with indices lo <= i < hi. */
  function InterestSum(rows: seq<Row>, lo: nat, hi: nat): real
    requires lo <= hi <= |rows|
    decreases hi
  {
    if lo == hi then 0.0 else InterestSum(rows, lo, hi - 1) + rows[hi - 1].monthlyInterest
  }

  /** The interest shown for the year of `month`: the rows from the year's
      first month up to `month`, cut off at the end of the rows. */
  function YearInterest(rows: seq<Row>, month: nat): real
    requires month >= 1
  {
    var hi := Min(month, |rows|);
    var lo := Min(YearStart(month), hi);
    InterestSum(rows, lo, hi)
  }

  /** The table's loop that adds up a year's monthly interest. */
  method PeriodInterest(rows: seq<Row>, month: nat) returns (periodInterest: real)
    requires month >= 1
    ensures periodInterest == YearInterest(rows, month)
  {
    var startMonth := YearStart(month);
    var endMonth := month;
    periodInterest := 0.0;
    var i := startMonth;
    while i < endMonth && i < |rows|
      invariant startMonth <= i
      invariant i <= Min(endMonth, |rows|) || (i == startMonth && periodInterest == 0.0)
      invariant i <= Min(endMonth, |rows|) ==> periodInterest == InterestSum(rows, startMonth, i)
    {
      periodInterest := periodInterest + rows[i].monthlyInterest;
      i := i + 1;
    }
  }

  /** Rows in which each month adds its interest and the contribution to the
      balance it starts from, and starts from where the previous month ended:
      what GenerateProjection promises. */
  predicate Chained(rows: seq<Row>, contribution: real)
  {
    && (forall i :: 0 <= i < |rows| ==>
          rows[i].finalBalance == rows[i].previousBalance + rows[i].monthlyInterest + contribution)
    && (forall i :: 0 < i < |rows| ==> rows[i].previousBalance == rows[i - 1].finalBalance)
  }

  /** Over any stretch of chained rows, the balance grows by the interest
      earned plus one contribution per month. */
  lemma {:induction false} InterestTelescopes(rows: seq<Row>, contribution: real, lo: nat, hi: nat)
    requires Chained(rows, contribution)
    requires lo < hi <= |rows|
    ensures rows[hi - 1].finalBalance
      == rows[lo].previousBalance + InterestSum(rows, lo, hi) + ((hi - lo) as real) * contribution
  {
    assert InterestSum(rows, lo, hi) == InterestSum(rows, lo, hi - 1) + rows[hi - 1].monthlyInterest;
    if lo < hi - 1 {
      InterestTelescopes(rows, contribution, lo, hi - 1);
      assert rows[hi - 1].previousBalance == rows[hi - 2].finalBalance;
      assert ((hi - lo) as real) * contribution == ((hi - 1 - lo) as real) * contribution + contribution;
    }
  }

  // ---------------------------------------------------------------------------
  // The table
  // ---------------------------------------------------------------------------

  /** One line of the results table. */
  datatype TableRow = TableRow(
    period: nat,
    contribution: real,
    previousBalance: real,
    interest: real,
    finalBalance: real)

  /** The previous balance of a yearly line as the table computes it: the
      final balance at the end of the previous year, but only for display
      positions after the first; the first line keeps its own row's
      previousBalance. */
  function YearPreviousBalanceAsWritten(rows: seq<Row>, k: nat, index: nat): real
    requires k < |rows|
    requires rows[k].month >= 1
  {
    var prevYearEnd := YearStart(rows[k].month) as int - 1;
    if index > 0 && 0 <= prevYearEnd < |rows| then rows[prevYearEnd].finalBalance
    else rows[k].previousBalance
  }

  /** The previous balance of a yearly line as intended: the balance at the
      start of the line's year, which for the first year is the balance
      before the first month. */
  function YearPreviousBalance(rows: seq<Row>, k: nat): real
    requires k < |rows|
    requires rows[k].month >= 1
  {
    var start := YearStart(rows[k].month);
    if start == 0 then rows[0].previousBalance
    else if start <= |rows| then rows[start - 1].finalBalance
    else rows[k].previousBalance
  }

  function YearTableRowAsWritten(rows: seq<Row>, k: nat, index: nat): TableRow
    requires MonthsNumbered(rows)
    requires k < |rows|
  {
    TableRow(YearOf(rows[k].month), rows[k].contribution * 12.0,
             YearPreviousBalanceAsWritten(rows, k, index),
             YearInterest(rows, rows[k].month), rows[k].finalBalance)
  }

  function YearTableRow(rows: seq<Row>, k: nat): TableRow
    requires MonthsNumbered(rows)
    requires k < |rows|
  {
    TableRow(YearOf(rows[k].month), rows[k].contribution * 12.0,
             YearPreviousBalance(rows, k),
             YearInterest(rows, rows[k].month), rows[k].finalBalance)
  }

  /** The yearly table exactly as the calculator builds it: one line per
      year, line j labelled year j + 1 and ending at the balance of the
      year's last row, the last line at the balance of the last month. */
  function YearlyTableAsWritten(rows: seq<Row>): (t: seq<TableRow>)
    requires MonthsNumbered(rows)
    ensures |t| == YearOf(|rows|)
    ensures forall j :: 0 <= j < |t| ==> t[j].period == j + 1
    ensures forall j :: 0 <= j < |t| && 12 * j + 12 <= |rows| ==>
      t[j].finalBalance == rows[12 * j + 11].finalBalance
    ensures |rows| > 0 ==> t[|t| - 1].finalBalance == rows[|rows| - 1].finalBalance
  {
    TableYearIndicesSelection(|rows|);
    var idx := TableYearIndices(|rows|);
    seq(|idx|, j requires 0 <= j < |idx| => YearTableRowAsWritten(rows, idx[j], j))
  }

  /** The yearly table with the first year's previous balance corrected. */
  function YearlyTable(rows: seq<Row>): seq<TableRow>
    requires MonthsNumbered(rows)
  {
    var idx := TableYearIndices(|rows|);
    seq(|idx|, j requires 0 <= j < |idx| => YearTableRow(rows, idx[j]))
  }

  function MonthTableRow(r: Row): TableRow
  {
    TableRow(r.month, r.contribution, r.previousBalance, r.monthlyInterest, r.finalBalance)
  }

  /** The months the monthly table shows: the first twelve and, when there
      are more, the last one. */
  function MonthlyShown(rows: seq<Row>): seq<Row>
  {
    rows[..Min(|rows|, 12)] + (if |rows| > 12 then [rows[|rows| - 1]] else [])
  }

  /** The monthly table: the first twelve months as they are and, when
      there are more, the last month after them. */
  function MonthlyTable(rows: seq<Row>): (t: seq<TableRow>)
    ensures |t| == Min(|rows|, 12) + (if |rows| > 12 then 1 else 0)
    ensures forall j :: 0 <= j < Min(|rows|, 12) ==> t[j] == MonthTableRow(rows[j])
    ensures |rows| > 12 ==> t[12] == MonthTableRow(rows[|rows| - 1])
  {
    var shown := MonthlyShown(rows);
    seq(|shown|, j requires 0 <= j < |shown| => MonthTableRow(shown[j]))
  }

  /** The table for the selected period type, as the calculator shows it. */
  function TableView(rows: seq<Row>, periodType: PeriodType): (t: seq<TableRow>)
    requires MonthsNumbered(rows)
    ensures periodType == Years ==> t == YearlyTableAsWritten(rows)
    ensures periodType == Months ==> t == MonthlyTable(rows)
  {
    if periodType == Years then YearlyTableAsWritten(rows) else MonthlyTable(rows)
  }

  /** The yearly table as built and the corrected one differ only in the
      previous balance of the first line: every later line, and everything
      else in the first, is the same. */
  lemma YearlyTablesAgreeAfterFirst(rows: seq<Row>)
    requires MonthsNumbered(rows)
    ensures var w := YearlyTableAsWritten(rows); var t := YearlyTable(rows);
      && |w| == |t|
      && (forall j :: 1 <= j < |t| ==> w[j] == t[j])
      && (|t| > 0 ==> w[0] == t[0].(previousBalance := w[0].previousBalance))
  {
    TableYearIndicesSelection(|rows|);
    var idx := TableYearIndices(|rows|);
    var w := YearlyTableAsWritten(rows);
    var t := YearlyTable(rows);
    forall j | 1 <= j < |t|
      ensures w[j] == t[j]
    {
      var k := idx[j];
      assert rows[k].month == k + 1;
      assert YearStart(k + 1) == 12 * j;
      assert 12 * j <= k;
    }
  }

  /** Every yearly line after the first, as built, starts where the previous
      line ended and adds up: only the first line is off. */
  lemma YearlyTableAsWrittenLaterLines(initial: real, rate: real, contribution: real, n: nat)
    requires n % 12 == 0
    ensures var rows := Projection(initial, rate, contribution, n);
      MonthsNumbered(rows) &&
      var w := YearlyTableAsWritten(rows);
      forall j :: 1 <= j < |w| ==>
        && w[j].previousBalance == w[j - 1].finalBalance
        && w[j].previousBalance + w[j].interest + w[j].contribution == w[j].finalBalance
  {
    var rows := Projection(initial, rate, contribution, n);
    ProjectionNumbered(initial, rate, contribution, n);
    ProjectionChained(initial, rate, contribution, n);
    ProjectionInterestFirst(initial, rate, contribution, n);
    YearlyTableAsWrittenAddsUp(rows, contribution);
  }

  /** The same over any chained rows covering whole years. */
  lemma YearlyTableAsWrittenAddsUp(rows: seq<Row>, contribution: real)
    requires MonthsNumbered(rows) && Chained(rows, contribution)
    requires forall i :: 0 <= i < |rows| ==> rows[i].contribution == contribution
    requires |rows| % 12 == 0
    ensures var w := YearlyTableAsWritten(rows);
      forall j :: 1 <= j < |w| ==>
        && w[j].previousBalance == w[j - 1].finalBalance
        && w[j].previousBalance + w[j].interest + w[j].contribution == w[j].finalBalance
  {
    YearlyTableAddsUp(rows, contribution);
    YearlyTablesAgreeAfterFirst(rows);
    var w := YearlyTableAsWritten(rows);
    var t := YearlyTable(rows);
    forall j | 1 <= j < |w|
      ensures w[j].previousBalance == w[j - 1].finalBalance
      ensures w[j].previousBalance + w[j].interest + w[j].contribution == w[j].finalBalance
    {
      assert w[j] == t[j];
      assert w[j - 1].finalBalance == t[j - 1].finalBalance;
      assert t[j].previousBalance == rows[12 * j].previousBalance;
      assert t[j - 1].finalBalance == rows[12 * (j - 1) + 11].finalBalance;
      assert rows[12 * j].previousBalance == rows[12 * j - 1].finalBalance;
    }
  }

  /** For chained rows over whole years, line j of the yearly table is year
      j + 1, runs from the balance at the start of that year to the balance
      at its end, and the two differ by exactly the year's interest and its
      twelve contributions. */
  lemma YearlyTableAddsUp(rows: seq<Row>, contribution: real)
    requires MonthsNumbered(rows) && Chained(rows, contribution)
    requires forall i :: 0 <= i < |rows| ==> rows[i].contribution == contribution
    requires |rows| % 12 == 0
    ensures var t := YearlyTable(rows);
      |t| == |rows| / 12 &&
      forall j :: 0 <= j < |t| ==>
        && t[j].period == j + 1
        && t[j].previousBalance == rows[12 * j].previousBalance
        && t[j].finalBalance == rows[12 * j + 11].finalBalance
        && t[j].previousBalance + t[j].interest + t[j].contribution == t[j].finalBalance
  {
    var idx := TableYearIndices(|rows|);
    var t := YearlyTable(rows);
    forall j | 0 <= j < |t|
      ensures t[j] == YearTableRow(rows, 12 * j + 11)
    {
      assert idx[j] == 12 * j + 11;
    }
    forall j | 0 <= j < |t|
      ensures t[j].period == j + 1
      ensures t[j].previousBalance == rows[12 * j].previousBalance
      ensures t[j].finalBalance == rows[12 * j + 11].finalBalance
      ensures t[j].previousBalance + t[j].interest + t[j].contribution == t[j].finalBalance
    {
      YearLineAddsUp(rows, contribution, j);
    }
  }

  /** One yearly line over chained rows: year j + 1, from the start of its
      first month to the end of its twelfth, adding up. */
  lemma YearLineAddsUp(rows: seq<Row>, contribution: real, j: nat)
    requires MonthsNumbered(rows) && Chained(rows, contribution)
    requires forall i :: 0 <= i < |rows| ==> rows[i].contribution == contribution
    requires 12 * j + 12 <= |rows|
    ensures var line := YearTableRow(rows, 12 * j + 11);
      && line.period == j + 1
      && line.previousBalance == rows[12 * j].previousBalance
      && line.finalBalance == rows[12 * j + 11].finalBalance
      && line.previousBalance + line.interest + line.contribution == line.finalBalance
  {
    var k := 12 * j + 11;
    assert rows[k].month == k + 1;
    assert YearOf(k + 1) == j + 1;
    assert YearStart(k + 1) == 12 * j;
    var line := YearTableRow(rows, k);
    assert line.previousBalance == rows[12 * j].previousBalance by {
      if j > 0 {
        assert rows[12 * j].previousBalance == rows[12 * j - 1].finalBalance;
      }
    }
    assert line.interest == InterestSum(rows, 12 * j, 12 * j + 12);
    assert line.contribution == 12.0 * contribution;
    InterestTelescopes(rows, contribution, 12 * j, 12 * j + 12);
  }

  /** The same for the calculator's own projection: the first yearly line
      starts from the initial amount. */
  lemma YearlyTableBalances(initial: real, rate: real, contribution: real, n: nat)
    requires n % 12 == 0
    ensures var rows := Projection(initial, rate, contribution, n);
      MonthsNumbered(rows) &&
      var t := YearlyTable(rows);
      |t| == n / 12 &&
      (n > 0 ==> t[0].previousBalance == initial) &&
      forall j :: 0 <= j < |t| ==>
        && t[j].period == j + 1
        && t[j].finalBalance == rows[12 * j + 11].finalBalance
        && t[j].previousBalance + t[j].interest + t[j].contribution == t[j].finalBalance
  {
    var rows := Projection(initial, rate, contribution, n);
    ProjectionNumbered(initial, rate, contribution, n);
    ProjectionChained(initial, rate, contribution, n);
    ProjectionInterestFirst(initial, rate, contribution, n);
    YearlyTableAddsUp(rows, contribution);
  }

  /** As built, the first yearly line of any projection of at least a year
      shows the balance before its twelfth month instead of the initial
      amount that the corrected table shows. */
  lemma YearlyFirstLineAsWritten(initial: real, rate: real, contribution: real, n: nat)
    requires n >= 12
    ensures var rows := Projection(initial, rate, contribution, n);
      MonthsNumbered(rows) &&
      |YearlyTableAsWritten(rows)| > 0 && |YearlyTable(rows)| > 0 &&
      YearlyTableAsWritten(rows)[0].previousBalance == Balance(initial, rate, contribution, 11) &&
      YearlyTable(rows)[0].previousBalance == initial
  {
    var rows := Projection(initial, rate, contribution, n);
    ProjectionNumbered(initial, rate, contribution, n);
    var idx := TableYearIndices(n);
    assert YearEnds(n)[0] == 11;
    assert idx[0] == 11;
    assert rows[11] == RowAt(initial, rate, contribution, 11);
    assert rows[0] == RowAt(initial, rate, contribution, 0);
  }

  /** A concrete case: nothing invested up front, no interest, 100 a month
      for one year. The line as built starts from 1100, so its previous
      balance, interest and contributions add up to 2300 instead of the
      final 1200. */
  lemma YearlyFirstLineMismatch()
    ensures var rows := Projection(0.0, 0.0, 100.0, 12);
      MonthsNumbered(rows) &&
      var line := YearlyTableAsWritten(rows)[0];
      line.previousBalance == 1100.0 && line.finalBalance == 1200.0 &&
      line.previousBalance + line.interest + line.contribution != line.finalBalance
  {
    var rows := Projection(0.0, 0.0, 100.0, 12);
    YearlyFirstLineAsWritten(0.0, 0.0, 100.0, 12);
    YearlyTableBalances(0.0, 0.0, 100.0, 12);
    ZeroRateBalance(0.0, 100.0, 11);
    ZeroRateBalance(0.0, 100.0, 12);
    var line := YearlyTableAsWritten(rows)[0];
    assert line.interest == YearlyTable(rows)[0].interest;
    assert line.contribution == YearlyTable(rows)[0].contribution;
  }

  /** The monthly table shows months 1 to min(n, 12) in order and, when the
      projection is longer, the last month once after them; every line adds
      up. */
  lemma MonthlyTableShape(initial: real, rate: real, contribution: real, n: nat)
    ensures var rows := Projection(initial, rate, contribution, n);
      var t := MonthlyTable(rows);
      && |t| == Min(n, 12) + (if n > 12 then 1 else 0)
      && (forall j :: 0 <= j < Min(n, 12) ==> t[j].period == j + 1)
      && (n > 12 ==> t[12].period == n && t[12].finalBalance == rows[n - 1].finalBalance)
      && (forall j, k :: 0 <= j < k < |t| ==> t[j].period < t[k].period)
      && (forall j :: 0 <= j < |t| ==>
            t[j].previousBalance + t[j].interest + t[j].contribution == t[j].finalBalance)
  {
    var rows := Projection(initial, rate, contribution, n);
    ProjectionNumbered(initial, rate, contribution, n);
    ProjectionInterestFirst(initial, rate, contribution, n);
    var shown := MonthlyShown(rows);
    assert forall j :: 0 <= j < Min(n, 12) ==> shown[j] == rows[j];
    assert n > 12 ==> shown[12] == rows[n - 1];
  }

  // ---------------------------------------------------------------------------
  // The chart
  // ---------------------------------------------------------------------------

  /** One point of each of the chart's three series, with its period label. */
  datatype ChartPoint = ChartPoint(period: nat, invested: real, balance: real, interest: real)

  function ChartSeries(rows: seq<Row>, periodType: PeriodType): (r: seq<ChartPoint>)
    ensures periodType == Months ==> |r| == |rows|
    ensures periodType == Months ==>
      forall i :: 0 <= i < |r| ==>
        && r[i].invested == rows[i].totalInvested
        && r[i].balance == rows[i].finalBalance
        && r[i].interest == rows[i].totalInterest
        && r[i].period == rows[i].month
    ensures periodType == Years ==> |r| == YearOf(|rows|)
    ensures periodType == Years && |rows| > 0 ==>
      && r[|r| - 1].balance == rows[|rows| - 1].finalBalance
      && r[|r| - 1].invested == rows[|rows| - 1].totalInvested
  {
    ChartSelectsTableYears(|rows|);
    TableYearIndicesCount(|rows|);
    if periodType == Years then
      var idx := ChartYearIndices(|rows|);
      seq(|idx|, j requires 0 <= j < |idx| =>
        var r := rows[idx[j]];
        ChartPoint(YearOf(r.month), r.totalInvested, r.finalBalance, r.totalInterest))
    else
      seq(|rows|, i requires 0 <= i < |rows| =>
        ChartPoint(rows[i].month, rows[i].totalInvested, rows[i].finalBalance, rows[i].totalInterest))
  }

  /** Each point of the yearly chart plots the invested total, the balance
      and the accumulated interest of the same row: the row the yearly table
      shows on the same line. */
  lemma YearlyChartPoints(rows: seq<Row>)
    ensures var points := ChartSeries(rows, Years);
      var idx := TableYearIndices(|rows|);
      |points| == |idx| &&
      forall j :: 0 <= j < |points| ==>
        && points[j].invested == rows[idx[j]].totalInvested
        && points[j].balance == rows[idx[j]].finalBalance
        && points[j].interest == rows[idx[j]].totalInterest
  {
    ChartSelectsTableYears(|rows|);
  }

  /** The yearly chart has one point per year, labelled 1, 2, ... in order,
      each taken from the same row as the matching line of the yearly table. */
  lemma YearlyChartMatchesTable(rows: seq<Row>)
    requires MonthsNumbered(rows)
    ensures var points := ChartSeries(rows, Years);
      var t := YearlyTableAsWritten(rows);
      |points| == |t| == YearOf(|rows|) &&
      forall j :: 0 <= j < |points| ==>
        points[j].period == j + 1 && points[j].period == t[j].period &&
        points[j].balance == t[j].finalBalance
  {
    ChartSelectsTableYears(|rows|);
    TableYearIndicesSelection(|rows|);
  }
}
