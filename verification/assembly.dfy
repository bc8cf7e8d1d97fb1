/** The series assembly of the main block as one function: sort the
    transactions by date, build the portfolio series, then run the
    fund-wise loop. The first failure aborts the run. */
module Assembly {
  import opened Common
  import opened Records
  import opened DateOrder
  import opened CashFlows
  import opened Portfolio
  import opened FundSeriesAssembly

  /** Series assembly for the whole statement. */
  function Assemble(txns: seq<Transaction>, vals: seq<Valuation>): (r: Result<Report, AssemblyError>)
    ensures r.Ok? <==> |vals| > 0 && forall i :: 0 <= i < |txns| ==> HasValuation(vals, txns[i].fund)
    ensures |vals| == 0 ==> r == Err(NoValuationRows)
    ensures r.Ok? ==> |r.value.portfolio| == |txns| + 1 && |r.value.funds| == |DistinctFunds(SortByDate(txns))|
  {
    var sorted := SortByDate(txns);
    var portfolio := BuildPortfolioSeries(sorted, vals);
    var funds := BuildAllFundSeries(sorted, vals);
    AllFundSeriesOutcome(sorted, vals);
    SameRowsSameFunds(txns, sorted, vals);
    assert |sorted| == |multiset(sorted)| == |multiset(txns)| == |txns|;
    if portfolio.Err? then Err(portfolio.error)
    else if funds.Err? then Err(funds.error)
    else Ok(Report(portfolio.value, funds.value))
  }

  /** Reordering the rows does not change which fund names need a valuation. */
  lemma {:induction false} SameRowsSameFunds(txns: seq<Transaction>, sorted: seq<Transaction>, vals: seq<Valuation>)
    requires multiset(sorted) == multiset(txns)
    ensures (forall i :: 0 <= i < |txns| ==> HasValuation(vals, txns[i].fund))
            <==> (forall i :: 0 <= i < |sorted| ==> HasValuation(vals, sorted[i].fund))
  {
    forall i | 0 <= i < |txns| ensures txns[i] in sorted {
      assert txns[i] in multiset(txns);
    }
    forall i | 0 <= i < |sorted| ensures sorted[i] in txns {
      assert sorted[i] in multiset(sorted);
    }
  }

  /** All transactions of `ts` that the fund series for `funds` take in, counted with multiplicity. */
  function FilteredRows(funds: seq<Option<string>>, ts: seq<Transaction>): multiset<Transaction>
  {
    if |funds| == 0 then multiset{} else multiset(FilterFund(ts, funds[0])) + FilteredRows(funds[1..], ts)
  }

  lemma {:induction false} FilteredRowsOccurrences(funds: seq<Option<string>>, ts: seq<Transaction>, t: Transaction)
    requires forall j, k :: 0 <= j < k < |funds| ==> funds[j] != funds[k]
    ensures FilteredRows(funds, ts)[t] == if t.fund.Some? && t.fund in funds then multiset(ts)[t] else 0
  {
    if |funds| > 0 {
      FilteredRowsOccurrences(funds[1..], ts, t);
      FilterFundOccurrences(ts, funds[0], t);
      assert funds == [funds[0]] + funds[1..];
      if t.fund == funds[0] {
        assert t.fund !in funds[1..];
      }
    }
  }

  /** When the fund-wise loop succeeds, every transaction goes into exactly
      one fund series: together the series take in each row as often as it
      occurs. */
  lemma {:induction false} FundSeriesPartition(sorted: seq<Transaction>, vals: seq<Valuation>)
    requires BuildAllFundSeries(sorted, vals).Ok?
    ensures FilteredRows(DistinctFunds(sorted), sorted) == multiset(sorted)
  {
    var funds := DistinctFunds(sorted);
    forall i | 0 <= i < |sorted| ensures sorted[i].fund.Some? {
      if sorted[i].fund.None? {
        UnnamedTransactionFails(sorted, vals, i);
      }
    }
    forall t ensures FilteredRows(funds, sorted)[t] == multiset(sorted)[t] {
      FilteredRowsOccurrences(funds, sorted, t);
      if t in multiset(sorted) {
        var i :| 0 <= i < |sorted| && sorted[i] == t;
        assert Occurs(sorted, t.fund);
      }
    }
  }

  /** The statement of the worked example below. */
  predicate ExampleInput(txns: seq<Transaction>, vals: seq<Valuation>)
  {
    && txns == [Transaction(Some("A"), 0, 1000.0), Transaction(Some("A"), 366, -200.0)]
    && vals == [Valuation(Some("A"), 731, 1000.0)]
  }

  function ExampleFlows(): seq<CashFlow>
  {
    [CashFlow(0, -1000.0), CashFlow(366, 200.0), CashFlow(731, 1000.0)]
  }

  lemma {:induction false} ExamplePortfolio(txns: seq<Transaction>, vals: seq<Valuation>)
    requires ExampleInput(txns, vals)
    ensures BuildPortfolioSeries(txns, vals) == Ok(ExampleFlows())
  {
    var flows := ExampleFlows();
    assert vals[1..] == [] && TotalValue(vals) == 1000.0;
    assert Outflows(txns) == flows[..2];
    assert Terminal(vals) == flows[2];
    assert flows == flows[..2] + [flows[2]];
  }

  lemma {:induction false} ExampleDistinctFunds(txns: seq<Transaction>, vals: seq<Valuation>)
    requires ExampleInput(txns, vals)
    ensures DistinctFunds(txns) == [Some("A")]
  {
    var first := txns[0];
    assert txns[..1] == [first] && [first][..0] == [];
    assert DistinctFunds([first]) == [Some("A")];
  }

  lemma {:induction false} ExampleFundSeries(txns: seq<Transaction>, vals: seq<Valuation>)
    requires ExampleInput(txns, vals)
    ensures BuildFundSeries(Some("A"), txns, vals) == Ok(ExampleFlows())
  {
    var flows := ExampleFlows();
    var second := txns[1];
    assert txns[1..] == [second] && [second][1..] == [];
    assert FilterFund([second], Some("A")) == [second];
    assert FilterFund(txns, Some("A")) == txns;
    assert FirstValuation(vals, Some("A")) == Some(vals[0]);
    assert Outflows(txns) == flows[..2];
    assert flows == flows[..2] + [flows[2]];
  }

  lemma {:induction false} ExampleFunds(txns: seq<Transaction>, vals: seq<Valuation>)
    requires ExampleInput(txns, vals)
    ensures BuildAllFundSeries(txns, vals) == Ok([FundSeries(Some("A"), ExampleFlows())])
  {
    ExampleDistinctFunds(txns, vals);
    ExampleFundSeries(txns, vals);
    var funds := [Some("A")];
    assert funds[1..] == [];
    assert SeriesForFunds(funds[1..], txns, vals) == Ok([]);
    var one := [FundSeries(Some("A"), ExampleFlows())];
    assert one + [] == one;
    assert SeriesForFunds(funds, txns, vals) == Ok(one);
  }

  /** One fund bought for 1000 on day 0 (2020-01-01), partly redeemed for
      200 on day 366 (2021-01-01), worth 1000 on day 731 (2022-01-01): both
      the portfolio and the fund series are the purchase as an outflow, the
      redemption as an inflow, and the valuation. */
  lemma {:induction false} AssembleExample(txns: seq<Transaction>, vals: seq<Valuation>)
    requires ExampleInput(txns, vals)
    ensures Assemble(txns, vals)
            == Ok(Report([CashFlow(0, -1000.0), CashFlow(366, 200.0), CashFlow(731, 1000.0)],
                         [FundSeries(Some("A"), [CashFlow(0, -1000.0), CashFlow(366, 200.0), CashFlow(731, 1000.0)])]))
  {
    assert SortByDate(txns) == txns;
    ExamplePortfolio(txns, vals);
    ExampleFunds(txns, vals);
  }
}
