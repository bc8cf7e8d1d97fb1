/** When the portfolio's terminal value equals the sum of the funds' terminal values.

    The portfolio series closes on the sum of all valuation rows; each fund
    series closes on that fund's first valuation row. The two agree when
    every valuation row names a distinct fund that also occurs among the
    transactions. Nothing in the main block checks this. */
module Consistency {
  import opened Common
  import opened Records
  import opened CashFlows
  import opened Portfolio
  import opened FundSeriesAssembly

  /** Every valuation row names a fund, and no fund has two rows. */
  predicate DistinctValuationFunds(vals: seq<Valuation>)
  {
    && (forall i :: 0 <= i < |vals| ==> vals[i].fund.Some?)
    && (forall i, j :: 0 <= i < j < |vals| ==> vals[i].fund != vals[j].fund)
  }

  /** Sum of the closing entries of the fund series. */
  function FundTerminalTotal(series: seq<FundSeries>): real
  {
    if |series| == 0 then 0.0
    else
      var flows := series[0].flows;
      (if |flows| == 0 then 0.0 else flows[|flows| - 1].amount) + FundTerminalTotal(series[1..])
  }

  /** The market value a fund's series closes on (0 when it has no row). */
  function ValueOf(vals: seq<Valuation>, f: Option<string>): real
  {
    match FirstValuation(vals, f)
    case None => 0.0
    case Some(v) => v.value
  }

  function SumValues(vals: seq<Valuation>, funds: seq<Option<string>>): real
  {
    if |funds| == 0 then 0.0 else ValueOf(vals, funds[0]) + SumValues(vals, funds[1..])
  }

  /** The fund column of the valuation table. */
  function ValuationFunds(vals: seq<Valuation>): seq<Option<string>>
  {
    seq(|vals|, i requires 0 <= i < |vals| => vals[i].fund)
  }

  lemma {:induction false} SumValuesAppend(vals: seq<Valuation>, a: seq<Option<string>>, b: seq<Option<string>>)
    ensures SumValues(vals, a + b) == SumValues(vals, a) + SumValues(vals, b)
  {
    if |a| > 0 {
      assert (a + b)[1..] == a[1..] + b;
      SumValuesAppend(vals, a[1..], b);
    } else {
      assert a + b == b;
    }
  }

  lemma {:induction false} SumValuesPermutation(vals: seq<Valuation>, a: seq<Option<string>>, b: seq<Option<string>>)
    requires multiset(a) == multiset(b)
    ensures SumValues(vals, a) == SumValues(vals, b)
    decreases |a|
  {
    if |a| == 0 {
      assert |b| == |multiset(b)| == 0;
    } else {
      var x := a[0];
      var i := RemoveMatch(a, b);
      var left, right := b[..i], b[i + 1..];
      SumValuesPermutation(vals, a[1..], left + right);
      SumValuesAppend(vals, left, right);
      SumValuesAppend(vals, left, [x] + right);
      SumValuesAppend(vals, [x], right);
      assert ([x] + right)[1..] == right;
      assert SumValues(vals, [x] + right) == ValueOf(vals, x) + SumValues(vals, right);
      assert SumValues(vals, a) == ValueOf(vals, x) + SumValues(vals, a[1..]);
      assert left + ([x] + right) == b;
    }
  }

  /** A sequence without repeats holds each of its elements exactly once. */
  lemma {:induction false} NoRepeatsMultiset(s: seq<Option<string>>, x: Option<string>)
    requires forall j, k :: 0 <= j < k < |s| ==> s[j] != s[k]
    ensures multiset(s)[x] == if x in s then 1 else 0
  {
    if |s| > 0 {
      assert s == [s[0]] + s[1..];
      NoRepeatsMultiset(s[1..], x);
      if x == s[0] {
        assert x !in s[1..];
      }
    }
  }

  /** With distinct valuation funds, each row is its own fund's first row. */
  lemma {:induction false} OwnFirstValuation(vals: seq<Valuation>, k: nat)
    requires DistinctValuationFunds(vals) && k < |vals|
    ensures ValueOf(vals, vals[k].fund) == vals[k].value
  {
    var f := vals[k].fund;
    assert SameFund(f, f);
    var v := FirstValuation(vals, f).value;
    var i :| 0 <= i < |vals| && vals[i] == v && SameFund(vals[i].fund, f)
             && forall j :: 0 <= j < i ==> !SameFund(vals[j].fund, f);
    assert i == k;
  }

  /** Summed fund by fund, the valuation rows give the total market value. */
  lemma {:induction false} TotalValueByFund(vals: seq<Valuation>, k: nat)
    requires DistinctValuationFunds(vals) && k <= |vals|
    ensures SumValues(vals, ValuationFunds(vals)[k..]) == TotalValue(vals[k..])
    decreases |vals| - k
  {
    if k < |vals| {
      TotalValueByFund(vals, k + 1);
      var fs := ValuationFunds(vals);
      assert fs[k..][1..] == fs[k + 1..];
      assert vals[k..][1..] == vals[k + 1..];
      OwnFirstValuation(vals, k);
    }
  }

  lemma {:induction false} FundTerminalsAreValues(funds: seq<Option<string>>, sorted: seq<Transaction>, vals: seq<Valuation>)
    requires SeriesForFunds(funds, sorted, vals).Ok?
    ensures FundTerminalTotal(SeriesForFunds(funds, sorted, vals).value) == SumValues(vals, funds)
  {
    if |funds| > 0 {
      var series := SeriesForFunds(funds, sorted, vals).value;
      assert SeriesForFunds(funds[1..], sorted, vals).Ok?;
      assert series[1..] == SeriesForFunds(funds[1..], sorted, vals).value;
      FundTerminalsAreValues(funds[1..], sorted, vals);
      var flows := series[0].flows;
      var own := FilterFund(sorted, funds[0]);
      assert Ok(flows) == BuildFundSeries(funds[0], sorted, vals);
      var i :| 0 <= i < |vals| && SameFund(vals[i].fund, funds[0])
               && (forall j :: 0 <= j < i ==> !SameFund(vals[j].fund, funds[0]))
               && flows[|own|] == CashFlow(vals[i].date, vals[i].value);
      var v := FirstValuation(vals, funds[0]).value;
      var i' :| 0 <= i' < |vals| && vals[i'] == v && SameFund(vals[i'].fund, funds[0])
                && forall j :: 0 <= j < i' ==> !SameFund(vals[j].fund, funds[0]);
      assert i == i';
    }
  }

  /** Under the hypotheses of `TerminalsAddUp`, the funds the loop visits
      and the funds of the valuation table are the same names, each once. */
  lemma {:induction false} SameFundNames(sorted: seq<Transaction>, vals: seq<Valuation>)
    requires DistinctValuationFunds(vals)
    requires forall i :: 0 <= i < |vals| ==> Occurs(sorted, vals[i].fund)
    requires forall i :: 0 <= i < |sorted| ==> HasValuation(vals, sorted[i].fund)
    ensures multiset(DistinctFunds(sorted)) == multiset(ValuationFunds(vals))
  {
    var funds := DistinctFunds(sorted);
    var fs := ValuationFunds(vals);
    forall x | x in funds ensures x in fs {
      var i :| 0 <= i < |sorted| && sorted[i].fund == x;
      assert HasValuation(vals, sorted[i].fund);
      var j :| 0 <= j < |vals| && SameFund(vals[j].fund, x);
      assert fs[j] == x;
    }
    forall x ensures multiset(funds)[x] == multiset(fs)[x] {
      NoRepeatsMultiset(funds, x);
      NoRepeatsMultiset(fs, x);
    }
  }

  /** When every valuation row names a distinct fund that occurs among the
      transactions, and every transaction's fund has a valuation row, the
      fund-wise loop succeeds and its series close on values that add up to
      the portfolio series' closing value. */
  lemma {:induction false} TerminalsAddUp(sorted: seq<Transaction>, vals: seq<Valuation>)
    requires DistinctValuationFunds(vals) && |vals| > 0
    requires forall i :: 0 <= i < |vals| ==> Occurs(sorted, vals[i].fund)
    requires forall i :: 0 <= i < |sorted| ==> HasValuation(vals, sorted[i].fund)
    ensures BuildAllFundSeries(sorted, vals).Ok?
    ensures FundTerminalTotal(BuildAllFundSeries(sorted, vals).value) == Terminal(vals).amount
  {
    var funds := DistinctFunds(sorted);
    var fs := ValuationFunds(vals);
    AllFundSeriesOutcome(sorted, vals);
    FundTerminalsAreValues(funds, sorted, vals);
    SameFundNames(sorted, vals);
    SumValuesPermutation(vals, funds, fs);
    TotalValueByFund(vals, 0);
    assert fs[0..] == fs && vals[0..] == vals;
  }
}
