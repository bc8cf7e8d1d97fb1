/** The whole-portfolio cash-flow series from the main block: the date-sorted
    transactions with amounts negated, closed by one terminal entry dated
    like the first valuation row and worth the sum of all valuations. */
module Portfolio {
  import opened Common
  import opened Records
  import opened DateOrder
  import opened CashFlows

  /** The terminal entry: first valuation row's date, total market value. */
  function Terminal(vals: seq<Valuation>): CashFlow
    requires |vals| > 0
  {
    CashFlow(vals[0].date, TotalValue(vals))
  }

  /** Assembles the portfolio series from the already sorted transactions.
      With no valuation row at all, `.iloc[0]` raises. */
  function BuildPortfolioSeries(sorted: seq<Transaction>, vals: seq<Valuation>): (r: Result<seq<CashFlow>, AssemblyError>)
    ensures r.Err? <==> |vals| == 0
    ensures r.Err? ==> r.error == NoValuationRows
    ensures r.Ok? ==>
              && |r.value| == |sorted| + 1
              && (forall i :: 0 <= i < |sorted| ==>
                    r.value[i].date == sorted[i].date && r.value[i].amount == -sorted[i].amount)
              && r.value[|sorted|] == Terminal(vals)
    ensures r.Ok? && SortedByDate(sorted) ==>
              forall i, j :: 0 <= i < j < |sorted| ==> r.value[i].date <= r.value[j].date
  {
    if |vals| == 0 then Err(NoValuationRows)
    else Ok(Outflows(sorted) + [Terminal(vals)])
  }

  /** The series holds the negated flows of the input transactions plus the
      terminal entry, whichever date-sort of them was used: the unstable
      order among equal dates changes only the order of the flows. */
  lemma {:induction false} PortfolioSeriesFlows(txns: seq<Transaction>, sorted: seq<Transaction>, vals: seq<Valuation>)
    requires IsDateSortOf(sorted, txns) && |vals| > 0
    ensures multiset(BuildPortfolioSeries(sorted, vals).value)
            == multiset(Outflows(txns)) + multiset{Terminal(vals)}
  {
    OutflowsPermutation(sorted, txns);
  }

  /** Undiscounted, the series nets to the current value minus what was paid. */
  lemma {:induction false} PortfolioNetFlow(sorted: seq<Transaction>, vals: seq<Valuation>)
    requires |vals| > 0
    ensures SumFlows(BuildPortfolioSeries(sorted, vals).value) == TotalValue(vals) - TotalPaid(sorted)
  {
    SumFlowsAppend(Outflows(sorted), [Terminal(vals)]);
    OutflowsSum(sorted);
  }
}
