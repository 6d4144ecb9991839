/**
 * The compound-interest projection of the calculator: a month-by-month fold
 * that keeps a running balance and a running total invested, applies the
 * month's interest to the previous balance first and adds the monthly
 * contribution afterwards, emitting one row per month.
 *
 * Money is modelled as `real`; the annual-to-monthly rate conversion is an
 * input (see MonthlyRate).
 */
module CompoundInterest {
  import opened Wrappers


  /** How the period field is read: as a number of months or of years. */
  datatype PeriodType = Months | Years

  /** How the interest-rate field is read: a monthly or an annual percentage. */
  datatype RateType = Monthly | Annual

  /** One month of the projection, with the fields the calculator emits. */
  datatype Row = Row(
    month: nat,
    contribution: real,
    previousBalance: real,
    monthlyInterest: real,
    finalBalance: real,
    totalInvested: real,
    totalInterest: real)

  /** The balance after `k` months: each month earns interest on the balance
      it starts with, and the contribution is added after the interest. */
  function Balance(initial: real, rate: real, contribution: real, k: nat): real
  {
    if k == 0 then initial
    else
      var before := Balance(initial, rate, contribution, k - 1);
      before + before * rate + contribution
  }

  /** What has been put in after `k` months: the initial amount and `k` contributions. */
  function Invested(initial: real, contribution: real, k: nat): real
  {
    initial + (k as real) * contribution
  }

  /** The row for month `i + 1`, in terms of `Balance` and `Invested` above. */
  function RowAt(initial: real, rate: real, contribution: real, i: nat): Row
  {
    var before := Balance(initial, rate, contribution, i);
    var after := Balance(initial, rate, contribution, i + 1);
    var invested := Invested(initial, contribution, i + 1);
    Row(i + 1, contribution, before, before * rate, after, invested, after - invested)
  }

  /** The whole projection for `period` months (none when `period <= 0`). */
  function Projection(initial: real, rate: real, contribution: real, period: int): seq<Row>
  {
    if period <= 0 then []
    else seq(period, i requires 0 <= i < period => RowAt(initial, rate, contribution, i))
  }

  /** Rows numbered 1, 2, ... in order: what every consumer of a projection relies on. */
  predicate MonthsNumbered(rows: seq<Row>)
  {
    forall i :: 0 <= i < |rows| ==> rows[i].month == i + 1
  }

  /** The loop of the calculator, kept as a loop over running values. */
  method GenerateProjection(initial: real, rate: real, contribution: real, period: int)
    returns (rows: seq<Row>)
    ensures rows == Projection(initial, rate, contribution, period)
    ensures |rows| == if period <= 0 then 0 else period
  {
    rows := [];
    var balance := initial;
    var totalInvested := initial;
    var month := 1;
    while month <= period
      invariant 1 <= month
      invariant period >= 1 ==> month <= period + 1
      invariant period < 1 ==> month == 1
      invariant |rows| == month - 1
      invariant balance == Balance(initial, rate, contribution, month - 1)
      invariant totalInvested == Invested(initial, contribution, month - 1)
      invariant forall i :: 0 <= i < |rows| ==> rows[i] == RowAt(initial, rate, contribution, i)
    {
      var previousBalance := balance;
      var monthlyInterest := balance * rate;
      balance := balance + monthlyInterest;
      balance := balance + contribution;
      totalInvested := totalInvested + contribution;
      rows := rows + [Row(month, contribution, previousBalance, monthlyInterest,
                          balance, totalInvested, balance - totalInvested)];
      month := month + 1;
    }
  }

  /** The projection has one row per month, numbered from 1. */
  lemma ProjectionNumbered(initial: real, rate: real, contribution: real, period: int)
    ensures |Projection(initial, rate, contribution, period)| == (if period <= 0 then 0 else period)
    ensures MonthsNumbered(Projection(initial, rate, contribution, period))
  {
  }

  /** Each row starts from the previous row's final balance, the first from the initial amount. */
  lemma ProjectionChained(initial: real, rate: real, contribution: real, period: int)
    ensures var rows := Projection(initial, rate, contribution, period);
      |rows| > 0 ==> rows[0].previousBalance == initial
    ensures var rows := Projection(initial, rate, contribution, period);
      forall i :: 0 < i < |rows| ==> rows[i].previousBalance == rows[i - 1].finalBalance
  {
  }

  /** Interest is earned on the previous balance, before the contribution is added. */
  lemma ProjectionInterestFirst(initial: real, rate: real, contribution: real, period: int)
    ensures var rows := Projection(initial, rate, contribution, period);
      forall i :: 0 <= i < |rows| ==>
        && rows[i].contribution == contribution
        && rows[i].monthlyInterest == rows[i].previousBalance * rate
        && rows[i].finalBalance == rows[i].previousBalance + rows[i].monthlyInterest + contribution
  {
  }

  /** After month k the total invested is the initial amount plus k contributions,
      and the accumulated interest is whatever the balance holds beyond that. */
  lemma ProjectionTotals(initial: real, rate: real, contribution: real, period: int)
    ensures var rows := Projection(initial, rate, contribution, period);
      forall i :: 0 <= i < |rows| ==>
        && rows[i].totalInvested == initial + ((i + 1) as real) * contribution
        && rows[i].totalInterest == rows[i].finalBalance - rows[i].totalInvested
  {
  }

  /** The period in months: a number of years is multiplied by 12. */
  function PeriodInMonths(period: int, periodType: PeriodType): (r: int)
    ensures (r > 0) == (period > 0)
    ensures periodType == Months ==> r == period
    ensures periodType == Years ==> r % 12 == 0 && r / 12 == period
  {
    if periodType == Years then period * 12 else period
  }

  /** The monthly rate fed to the projection. A monthly percentage is divided
      by 100; for an annual percentage the equivalent compound monthly rate
      is computed by the caller and passed in as `annualEquivalent`. */
  function MonthlyRate(rateType: RateType, interestRate: real, annualEquivalent: real): (r: real)
    ensures rateType == Monthly ==> r * 100.0 == interestRate
    ensures rateType == Monthly && interestRate >= 0.0 ==> r >= 0.0
    ensures rateType == Annual ==> r == annualEquivalent
  {
    if rateType == Annual then annualEquivalent else interestRate / 100.0
  }

  /** The form check run before every automatic recalculation. */
  predicate ValidateInputs(initial: real, interestRate: real, contribution: real, period: int)
    ensures ValidateInputs(initial, interestRate, contribution, period) ==>
      PeriodInMonths(period, Months) > 0 && PeriodInMonths(period, Years) > 0
    ensures period <= 0 ==> !ValidateInputs(initial, interestRate, contribution, period)
    ensures initial < 0.0 || interestRate < 0.0 || contribution < 0.0 ==>
      !ValidateInputs(initial, interestRate, contribution, period)
  {
    initial >= 0.0 && interestRate >= 0.0 && contribution >= 0.0 && period > 0
  }

  /** The numeric part of a calculation: no projection at all for a
      non-positive period, otherwise the projection over the period in months. */
  method Calculate(initial: real, interestRate: real, rateType: RateType, annualEquivalent: real,
                   contribution: real, period: int, periodType: PeriodType)
    returns (result: Option<seq<Row>>)
    ensures result.None? <==> period <= 0
    ensures result.Some? ==>
      && |result.value| == (if periodType == Years then 12 * period else period)
      && result.value == Projection(initial, MonthlyRate(rateType, interestRate, annualEquivalent),
                                    contribution, PeriodInMonths(period, periodType))
  {
    if period <= 0 {
      return None;
    }
    var periodInMonths := PeriodInMonths(period, periodType);
    var monthlyRate := MonthlyRate(rateType, interestRate, annualEquivalent);
    var rows := GenerateProjection(initial, monthlyRate, contribution, periodInMonths);
    result := Some(rows);
  }

  /** With no interest the balance is the amount invested. */
  lemma {:induction false} ZeroRateBalance(initial: real, contribution: real, k: nat)
    ensures Balance(initial, 0.0, contribution, k) == Invested(initial, contribution, k)
  {
    if k > 0 {
      ZeroRateBalance(initial, contribution, k - 1);
    }
  }

  /** With a zero rate no row earns interest and the accumulated interest is always zero. */
  lemma ZeroRateEarnsNothing(initial: real, contribution: real, period: int)
    ensures forall i :: 0 <= i < |Projection(initial, 0.0, contribution, period)| ==>
      var row := Projection(initial, 0.0, contribution, period)[i];
      row.monthlyInterest == 0.0 && row.totalInterest == 0.0 &&
      row.finalBalance == initial + ((i + 1) as real) * contribution
  {
    var rows := Projection(initial, 0.0, contribution, period);
    forall i | 0 <= i < |rows|
      ensures rows[i].monthlyInterest == 0.0 && rows[i].totalInterest == 0.0
      ensures rows[i].finalBalance == initial + ((i + 1) as real) * contribution
    {
      ZeroRateBalance(initial, contribution, i + 1);
    }
  }

  /** With non-negative inputs and rate the balance never falls below what
      was invested, which is itself non-negative. */
  lemma {:induction false} NoLossBalance(initial: real, rate: real, contribution: real, k: nat)
    requires initial >= 0.0 && rate >= 0.0 && contribution >= 0.0
    ensures Balance(initial, rate, contribution, k) >= Invested(initial, contribution, k) >= 0.0
  {
    if k > 0 {
      NoLossBalance(initial, rate, contribution, k - 1);
      var before := Balance(initial, rate, contribution, k - 1);
      assert before * rate >= 0.0;
      assert Invested(initial, contribution, k) == Invested(initial, contribution, k - 1) + contribution;
    }
  }

  /** Inputs that pass the form check give a non-empty projection whose
      accumulated interest is never negative. */
  lemma ValidatedProjectionEarnsNoLoss(initial: real, interestRate: real, rateType: RateType,
                                        annualEquivalent: real, contribution: real,
                                        period: int, periodType: PeriodType)
    requires ValidateInputs(initial, interestRate, contribution, period)
    requires rateType == Annual ==> annualEquivalent >= 0.0
    ensures var rows := Projection(initial, MonthlyRate(rateType, interestRate, annualEquivalent),
                                   contribution, PeriodInMonths(period, periodType));
      |rows| >= 1 &&
      forall i :: 0 <= i < |rows| ==>
        rows[i].totalInterest >= 0.0 && rows[i].finalBalance >= rows[i].totalInvested >= 0.0
  {
    var rate := MonthlyRate(rateType, interestRate, annualEquivalent);
    var rows := Projection(initial, rate, contribution, PeriodInMonths(period, periodType));
    forall i | 0 <= i < |rows|
      ensures rows[i].totalInterest >= 0.0 && rows[i].finalBalance >= rows[i].totalInvested >= 0.0
    {
      NoLossBalance(initial, rate, contribution, i + 1);
    }
  }
}
