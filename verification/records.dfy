/** Typed rows the series assembly works on.

    Dates are day numbers and amounts exact reals; converting the scanned
    text (`to_datetime`, `astype(float)`) is not part of this model. */
module Records {
  import opened Common

  /** A transaction row: the fund it was scanned under, its date and the
      amount as the statement records it (a purchase is positive). */
  datatype Transaction = Transaction(fund: Option<string>, date: int, amount: real)

  /** A valuation row: fund, statement date and market value. */
  datatype Valuation = Valuation(fund: Option<string>, date: int, value: real)

  /** One dated cash flow handed to the return solver. */
  datatype CashFlow = CashFlow(date: int, amount: real)

  /** The cash-flow series of one entry of the fund-wise loop. */
  datatype FundSeries = FundSeries(fund: Option<string>, flows: seq<CashFlow>)

  /** Everything the return computations consume: the portfolio series and
      one series per fund, in the order the fund-wise loop visits them. */
  datatype Report = Report(portfolio: seq<CashFlow>, funds: seq<FundSeries>)

  /** Why assembly raised: `.iloc[0]` on an empty selection. */
  datatype AssemblyError =
    | NoValuationRows                      // the valuation table is empty
    | MissingValuation(fund: Option<string>) // no valuation row for this fund

  /** Element-wise `==` of a fund-name column against a key. A missing
      name never compares equal, not even to a missing key. */
  predicate SameFund(cell: Option<string>, key: Option<string>)
  {
    cell.Some? && cell == key
  }
}
