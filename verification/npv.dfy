/** Net present value of an irregular cash-flow series (`xnpv`).

    Each flow is discounted by `(1 + rate)` raised to its year fraction:
    actual days since the series' earliest date over 365. The fractional
    power is floating-point library code and is passed in as `pow`; the
    root finder that drives this function is not part of this model. */
module Npv {
  import opened Records
  import opened CashFlows
  import opened Portfolio

  datatype NpvValue = PositiveInfinity | Finite(value: real)

  /** What is assumed of the power function: a positive base gives a
      positive, hence non-zero, result. */
  ghost predicate PowPositive(pow: (real, real) -> real)
  {
    forall b, e :: b > 0.0 ==> pow(b, e) > 0.0
  }

  /** The time origin of a series (`dates.min()`): no flow is dated before it
      and some flow is dated on it. */
  function EarliestDate(flows: seq<CashFlow>): (d0: int)
    requires |flows| > 0
    ensures forall i :: 0 <= i < |flows| ==> d0 <= flows[i].date
    ensures exists i :: 0 <= i < |flows| && flows[i].date == d0
  {
    if |flows| == 1 then flows[0].date
    else
      var rest := EarliestDate(flows[1..]);
      assert forall i :: 1 <= i < |flows| ==> flows[i] == flows[1..][i - 1];
      if flows[0].date <= rest then flows[0].date else rest
  }

  /** Actual days from `d0` to `date` over 365. */
  function YearFraction(date: int, d0: int): real
  {
    (date - d0) as real / 365.0
  }

  /** The discounted sum over `flows` with time origin `d0`. */
  function Discounted(flows: seq<CashFlow>, d0: int, rate: real, pow: (real, real) -> real): real
    requires rate > -1.0 && PowPositive(pow)
  {
    if |flows| == 0 then 0.0
    else
      var factor := pow(1.0 + rate, YearFraction(flows[0].date, d0));
      flows[0].amount / factor + Discounted(flows[1..], d0, rate, pow)
  }

  /** `xnpv`: a rate at or below -100% is answered with positive infinity,
      which steers the root finder away; otherwise the discounted sum. */
  function Xnpv(rate: real, flows: seq<CashFlow>, pow: (real, real) -> real): (r: NpvValue)
    requires PowPositive(pow)
    ensures r.PositiveInfinity? <==> rate <= -1.0
  {
    if rate <= -1.0 then PositiveInfinity
    else if |flows| == 0 then Finite(0.0)
    else Finite(Discounted(flows, EarliestDate(flows), rate, pow))
  }

  /** Every year fraction measured from the earliest date is non-negative,
      and the earliest flow's is zero. */
  lemma {:induction false} YearFractionsFromEarliest(flows: seq<CashFlow>)
    requires |flows| > 0
    ensures forall i :: 0 <= i < |flows| ==> YearFraction(flows[i].date, EarliestDate(flows)) >= 0.0
    ensures exists i :: 0 <= i < |flows| && YearFraction(flows[i].date, EarliestDate(flows)) == 0.0
  {
    var d0 := EarliestDate(flows);
    var i :| 0 <= i < |flows| && flows[i].date == d0;
    assert YearFraction(flows[i].date, d0) == 0.0;
  }

  lemma {:induction false} DiscountedAtZeroRate(flows: seq<CashFlow>, d0: int, pow: (real, real) -> real)
    requires PowPositive(pow) && forall e :: pow(1.0, e) == 1.0
    ensures Discounted(flows, d0, 0.0, pow) == SumFlows(flows)
  {
    if |flows| > 0 {
      DiscountedAtZeroRate(flows[1..], d0, pow);
      assert pow(1.0 + 0.0, YearFraction(flows[0].date, d0)) == 1.0;
    }
  }

  /** At rate zero nothing is discounted: the value is the plain sum of the
      amounts (given that the power function maps base 1 to 1). */
  lemma {:induction false} XnpvAtZeroRate(flows: seq<CashFlow>, pow: (real, real) -> real)
    requires PowPositive(pow) && forall e :: pow(1.0, e) == 1.0
    ensures Xnpv(0.0, flows, pow) == Finite(SumFlows(flows))
  {
    if |flows| > 0 {
      DiscountedAtZeroRate(flows, EarliestDate(flows), pow);
    }
  }

  /** At rate zero the portfolio series is worth its gain: current value
      minus everything paid in. */
  lemma {:induction false} PortfolioXnpvAtZeroRate(sorted: seq<Transaction>, vals: seq<Valuation>, pow: (real, real) -> real)
    requires |vals| > 0
    requires PowPositive(pow) && forall e :: pow(1.0, e) == 1.0
    ensures Xnpv(0.0, BuildPortfolioSeries(sorted, vals).value, pow) == Finite(TotalValue(vals) - TotalPaid(sorted))
  {
    XnpvAtZeroRate(BuildPortfolioSeries(sorted, vals).value, pow);
    PortfolioNetFlow(sorted, vals);
  }
}
