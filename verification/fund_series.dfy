/** The fund-wise loop of the main block: for each distinct fund name of the
    sorted transactions, in order of first appearance, that fund's
    transactions with amounts negated, closed by the fund's first
    valuation row. A fund without a valuation row raises. */
module FundSeriesAssembly {
  import opened Common
  import opened Records
  import opened DateOrder
  import opened CashFlows

  /** The rows of `ts` whose fund compares equal to `key` (`df[df["Fund_name"] == fund]`). */
  function FilterFund(ts: seq<Transaction>, key: Option<string>): (r: seq<Transaction>)
    ensures forall t :: t in r ==> t in ts && SameFund(t.fund, key)
  {
    if |ts| == 0 then []
    else (if SameFund(ts[0].fund, key) then [ts[0]] else []) + FilterFund(ts[1..], key)
  }

  /** Some valuation row compares equal to `key`. */
  predicate HasValuation(vals: seq<Valuation>, key: Option<string>)
  {
    exists i :: 0 <= i < |vals| && SameFund(vals[i].fund, key)
  }

  /** The first valuation row for `key`, if any (`.iloc[0]` of the selection). */
  function FirstValuation(vals: seq<Valuation>, key: Option<string>): (r: Option<Valuation>)
    ensures r.None? <==> !HasValuation(vals, key)
    ensures r.Some? ==> exists i :: 0 <= i < |vals| && vals[i] == r.value && SameFund(vals[i].fund, key)
                                    && forall j :: 0 <= j < i ==> !SameFund(vals[j].fund, key)
  {
    if |vals| == 0 then None
    else if SameFund(vals[0].fund, key) then Some(vals[0])
    else
      var r := FirstValuation(vals[1..], key);
      assert forall i :: 1 <= i < |vals| ==> vals[i] == vals[1..][i - 1];
      if r.Some? then
        var i :| 0 <= i < |vals[1..]| && vals[1..][i] == r.value && SameFund(vals[1..][i].fund, key)
                 && forall j :: 0 <= j < i ==> !SameFund(vals[1..][j].fund, key);
        assert vals[i + 1] == r.value;
        r
      else r
  }

  /** One iteration of the fund-wise loop for fund `key`. */
  function BuildFundSeries(key: Option<string>, sorted: seq<Transaction>, vals: seq<Valuation>): (r: Result<seq<CashFlow>, AssemblyError>)
    ensures r.Err? <==> !HasValuation(vals, key)
    ensures r.Err? ==> r.error == MissingValuation(key)
    ensures r.Ok? ==>
              var own := FilterFund(sorted, key);
              && |r.value| == |own| + 1
              && r.value[..|own|] == Outflows(own)
              && exists i :: 0 <= i < |vals| && SameFund(vals[i].fund, key)
                             && (forall j :: 0 <= j < i ==> !SameFund(vals[j].fund, key))
                             && r.value[|own|] == CashFlow(vals[i].date, vals[i].value)
  {
    match FirstValuation(vals, key)
    case None => Err(MissingValuation(key))
    case Some(v) =>
      var own := FilterFund(sorted, key);
      var flows := Outflows(own) + [CashFlow(v.date, v.value)];
      assert flows[..|own|] == Outflows(own);
      Ok(flows)
  }

  /** How often `t` occurs in the filtered rows: as often as in `ts` when its
      fund is `key`, never otherwise. */
  lemma {:induction false} FilterFundOccurrences(ts: seq<Transaction>, key: Option<string>, t: Transaction)
    ensures multiset(FilterFund(ts, key))[t] == if SameFund(t.fund, key) then multiset(ts)[t] else 0
  {
    if |ts| > 0 {
      FilterFundOccurrences(ts[1..], key, t);
      assert ts == [ts[0]] + ts[1..];
    }
  }

  /** Filtering two orderings of the same rows gives the same rows. */
  lemma {:induction false} FilterFundPermutation(a: seq<Transaction>, b: seq<Transaction>, key: Option<string>)
    requires multiset(a) == multiset(b)
    ensures multiset(FilterFund(a, key)) == multiset(FilterFund(b, key))
  {
    forall t ensures multiset(FilterFund(a, key))[t] == multiset(FilterFund(b, key))[t] {
      FilterFundOccurrences(a, key, t);
      FilterFundOccurrences(b, key, t);
    }
  }

  /** Filtering keeps a single row exactly when its fund compares equal. */
  lemma {:induction false} FilterFundSingle(t: Transaction, key: Option<string>)
    ensures FilterFund([t], key) == if SameFund(t.fund, key) then [t] else []
  {
    assert [t][1..] == [];
  }

  /** Filtering distributes over concatenation; with `FilterFundSingle`
      this says the kept rows stay in their relative order. */
  lemma {:induction false} FilterFundAppend(a: seq<Transaction>, b: seq<Transaction>, key: Option<string>)
    ensures FilterFund(a + b, key) == FilterFund(a, key) + FilterFund(b, key)
  {
    if |a| > 0 {
      assert (a + b)[1..] == a[1..] + b;
      FilterFundAppend(a[1..], b, key);
    } else {
      assert a + b == b;
    }
  }

  /** A lower bound on the dates of the rows is one on the filtered rows. */
  lemma {:induction false} FilterFundDatesFrom(ts: seq<Transaction>, key: Option<string>, d: int)
    requires forall i :: 0 <= i < |ts| ==> d <= ts[i].date
    ensures forall k :: 0 <= k < |FilterFund(ts, key)| ==> d <= FilterFund(ts, key)[k].date
  {
    if |ts| > 0 {
      var tail := ts[1..];
      assert forall i :: 0 <= i < |tail| ==> tail[i] == ts[i + 1];
      FilterFundDatesFrom(tail, key, d);
    }
  }

  /** Filtering keeps the relative order, so date order survives it. */
  lemma {:induction false} FilterFundSorted(ts: seq<Transaction>, key: Option<string>)
    requires SortedByDate(ts)
    ensures SortedByDate(FilterFund(ts, key))
  {
    if |ts| > 0 {
      var tail := ts[1..];
      var rest := FilterFund(tail, key);
      assert forall i :: 0 <= i < |tail| ==> tail[i] == ts[i + 1];
      FilterFundSorted(tail, key);
      FilterFundDatesFrom(tail, key, ts[0].date);
      var head := if SameFund(ts[0].fund, key) then [ts[0]] else [];
      assert FilterFund(ts, key) == head + rest;
    }
  }

  /** The transaction part of a fund's series is exactly that fund's
      transactions, negated and in non-decreasing date order, whichever
      date-sort of the input was used. */
  lemma {:induction false} FundSeriesFlows(key: Option<string>, txns: seq<Transaction>, sorted: seq<Transaction>, vals: seq<Valuation>)
    requires IsDateSortOf(sorted, txns) && HasValuation(vals, key)
    ensures var own := FilterFund(sorted, key);
            var flows := BuildFundSeries(key, sorted, vals).value;
            && multiset(flows[..|own|]) == multiset(Outflows(FilterFund(txns, key)))
            && forall i, j :: 0 <= i < j < |own| ==> flows[i].date <= flows[j].date
  {
    FilterFundPermutation(sorted, txns, key);
    OutflowsPermutation(FilterFund(sorted, key), FilterFund(txns, key));
    FilterFundSorted(sorted, key);
  }

  /** Some row of `ts` has fund name `f`. */
  predicate Occurs(ts: seq<Transaction>, f: Option<string>)
  {
    exists i :: 0 <= i < |ts| && ts[i].fund == f
  }

  /** The distinct fund names of `ts` in order of first appearance (`unique()`). */
  function DistinctFunds(ts: seq<Transaction>): (r: seq<Option<string>>)
    ensures forall j, k :: 0 <= j < k < |r| ==> r[j] != r[k]
    ensures forall f :: f in r <==> Occurs(ts, f)
    decreases |ts|
  {
    if |ts| == 0 then []
    else
      var init := ts[..|ts| - 1];
      var u := DistinctFunds(init);
      assert forall i :: 0 <= i < |init| ==> init[i] == ts[i];
      if ts[|ts| - 1].fund in u then u else u + [ts[|ts| - 1].fund]
  }

  /** Position of the first row of `ts` with fund `f`. */
  function FirstIndex(ts: seq<Transaction>, f: Option<string>): (i: nat)
    requires Occurs(ts, f)
    ensures i < |ts| && ts[i].fund == f
    ensures forall j :: 0 <= j < i ==> ts[j].fund != f
  {
    if ts[0].fund == f then 0
    else
      assert forall i :: 1 <= i < |ts| ==> ts[i] == ts[1..][i - 1];
      1 + FirstIndex(ts[1..], f)
  }

  lemma {:induction false} FirstIndexSnoc(ts: seq<Transaction>, x: Transaction, f: Option<string>)
    requires Occurs(ts, f)
    ensures Occurs(ts + [x], f)
    ensures FirstIndex(ts + [x], f) == FirstIndex(ts, f)
  {
    var i :| 0 <= i < |ts| && ts[i].fund == f;
    assert (ts + [x])[i] == ts[i];
    var a, b := FirstIndex(ts + [x], f), FirstIndex(ts, f);
    assert (ts + [x])[b] == ts[b];
  }

  /** `DistinctFunds` lists each fund at its first appearance, so earlier
      entries first appear earlier in the transactions. */
  lemma {:induction false} DistinctFundsFirstAppearanceOrder(ts: seq<Transaction>)
    ensures forall j, k :: 0 <= j < k < |DistinctFunds(ts)| ==>
              FirstIndex(ts, DistinctFunds(ts)[j]) < FirstIndex(ts, DistinctFunds(ts)[k])
    decreases |ts|
  {
    if |ts| > 0 {
      var init, x := ts[..|ts| - 1], ts[|ts| - 1];
      assert ts == init + [x];
      var u := DistinctFunds(init);
      DistinctFundsFirstAppearanceOrder(init);
      forall f | f in u ensures FirstIndex(ts, f) == FirstIndex(init, f) && FirstIndex(init, f) < |init| {
        FirstIndexSnoc(init, x, f);
      }
      var r := DistinctFunds(ts);
      forall j, k | 0 <= j < k < |r| ensures FirstIndex(ts, r[j]) < FirstIndex(ts, r[k]) {
        assert r[j] in u;
        if k < |u| {
          assert r[k] == u[k] && r[j] == u[j];
        } else {
          assert r[k] == x.fund && x.fund !in u;
          assert FirstIndex(ts, r[k]) == |init|;
        }
      }
    }
  }

  /** The fund-wise loop over the given fund names, stopping at the first
      fund with no valuation row. */
  function SeriesForFunds(funds: seq<Option<string>>, sorted: seq<Transaction>, vals: seq<Valuation>): (r: Result<seq<FundSeries>, AssemblyError>)
    ensures r.Ok? <==> forall k :: 0 <= k < |funds| ==> HasValuation(vals, funds[k])
    ensures r.Ok? ==> |r.value| == |funds|
                      && forall k :: 0 <= k < |funds| ==>
                           r.value[k].fund == funds[k] && Ok(r.value[k].flows) == BuildFundSeries(funds[k], sorted, vals)
  {
    if |funds| == 0 then Ok([])
    else if !HasValuation(vals, funds[0]) then Err(MissingValuation(funds[0]))
    else
      var tail := funds[1..];
      assert forall k :: 1 <= k < |funds| ==> funds[k] == tail[k - 1];
      match SeriesForFunds(tail, sorted, vals)
      case Err(e) => Err(e)
      case Ok(series) =>
        var r := [FundSeries(funds[0], BuildFundSeries(funds[0], sorted, vals).value)] + series;
        assert forall k :: 1 <= k < |funds| ==> r[k] == series[k - 1];
        Ok(r)
  }

  /** A failing loop reports the first fund without a valuation row. */
  lemma {:induction false} SeriesForFundsFirstFailure(funds: seq<Option<string>>, sorted: seq<Transaction>, vals: seq<Valuation>)
    requires SeriesForFunds(funds, sorted, vals).Err?
    ensures exists k :: 0 <= k < |funds| && SeriesForFunds(funds, sorted, vals).error == MissingValuation(funds[k])
                        && !HasValuation(vals, funds[k])
                        && forall j :: 0 <= j < k ==> HasValuation(vals, funds[j])
  {
    var e := SeriesForFunds(funds, sorted, vals).error;
    if HasValuation(vals, funds[0]) {
      var tail := funds[1..];
      SeriesForFundsFirstFailure(tail, sorted, vals);
      var k :| 0 <= k < |tail| && e == MissingValuation(tail[k])
               && !HasValuation(vals, tail[k])
               && forall j :: 0 <= j < k ==> HasValuation(vals, tail[j]);
      assert funds[k + 1] == tail[k];
      assert forall j :: 1 <= j < k + 1 ==> funds[j] == tail[j - 1];
    } else {
      assert e == MissingValuation(funds[0]);
    }
  }

  /** The whole fund-wise loop over the sorted transactions. */
  function BuildAllFundSeries(sorted: seq<Transaction>, vals: seq<Valuation>): (r: Result<seq<FundSeries>, AssemblyError>)
    ensures r.Err? ==> exists i :: 0 <= i < |sorted| && r.error == MissingValuation(sorted[i].fund)
                                   && !HasValuation(vals, sorted[i].fund)
    ensures r.Ok? ==> |r.value| == |DistinctFunds(sorted)|
                      && forall k :: 0 <= k < |r.value| ==>
                           r.value[k].fund == DistinctFunds(sorted)[k]
                           && Ok(r.value[k].flows) == BuildFundSeries(r.value[k].fund, sorted, vals)
  {
    var funds := DistinctFunds(sorted);
    var r := SeriesForFunds(funds, sorted, vals);
    if r.Err? then
      SeriesForFundsFirstFailure(funds, sorted, vals);
      assert forall k :: 0 <= k < |funds| ==> Occurs(sorted, funds[k]) by {
        forall k | 0 <= k < |funds| ensures Occurs(sorted, funds[k]) {
          assert funds[k] in funds;
        }
      }
      r
    else r
  }

  /** The loop succeeds exactly when every fund name occurring in the
      transactions has a valuation row; on success it yields one series per
      distinct fund, in order of first appearance. */
  lemma {:induction false} AllFundSeriesOutcome(sorted: seq<Transaction>, vals: seq<Valuation>)
    ensures BuildAllFundSeries(sorted, vals).Ok?
            <==> forall i :: 0 <= i < |sorted| ==> HasValuation(vals, sorted[i].fund)
    ensures BuildAllFundSeries(sorted, vals).Ok? ==>
              |BuildAllFundSeries(sorted, vals).value| == |DistinctFunds(sorted)|
  {
    var funds := DistinctFunds(sorted);
    if forall i :: 0 <= i < |sorted| ==> HasValuation(vals, sorted[i].fund) {
      forall k | 0 <= k < |funds| ensures HasValuation(vals, funds[k]) {
        assert funds[k] in funds;
      }
    } else {
      var i :| 0 <= i < |sorted| && !HasValuation(vals, sorted[i].fund);
      assert sorted[i].fund in funds;
    }
  }

  /** A transaction scanned before any fund header has no fund name; the
      comparison against a missing name is never true, so its lookup always
      raises and the fund-wise loop fails. */
  lemma {:induction false} UnnamedTransactionFails(sorted: seq<Transaction>, vals: seq<Valuation>, i: nat)
    requires i < |sorted| && sorted[i].fund.None?
    ensures BuildAllFundSeries(sorted, vals).Err?
  {
    AllFundSeriesOutcome(sorted, vals);
  }
}
