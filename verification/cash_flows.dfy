/** Turning transactions into cash flows, and the sums the series are checked against. */
module CashFlows {
  import opened Records

  /** Every amount negated (`-df_xirr['Amount']`): a purchase, recorded as a
      positive amount paid, becomes a negative flow; dates are kept. */
  function Outflows(ts: seq<Transaction>): (r: seq<CashFlow>)
    ensures |r| == |ts|
    ensures forall i :: 0 <= i < |ts| ==> r[i].date == ts[i].date && r[i].amount + ts[i].amount == 0.0
  {
    seq(|ts|, i requires 0 <= i < |ts| => CashFlow(ts[i].date, -ts[i].amount))
  }

  /** Sum of the statement amounts of `ts`. */
  function TotalPaid(ts: seq<Transaction>): real
  {
    if |ts| == 0 then 0.0 else ts[0].amount + TotalPaid(ts[1..])
  }

  /** Sum of the market values (`df_market_val['Market_value'].sum()`). */
  function TotalValue(vals: seq<Valuation>): real
  {
    if |vals| == 0 then 0.0 else vals[0].value + TotalValue(vals[1..])
  }

  /** Undiscounted sum of a series. */
  function SumFlows(flows: seq<CashFlow>): real
  {
    if |flows| == 0 then 0.0 else flows[0].amount + SumFlows(flows[1..])
  }

  lemma {:induction false} OutflowsAppend(a: seq<Transaction>, b: seq<Transaction>)
    ensures Outflows(a + b) == Outflows(a) + Outflows(b)
  {
    assert forall i :: 0 <= i < |a| ==> (a + b)[i] == a[i];
    assert forall i :: |a| <= i < |a| + |b| ==> (a + b)[i] == b[i - |a|];
  }

  lemma {:induction false} SumFlowsAppend(a: seq<CashFlow>, b: seq<CashFlow>)
    ensures SumFlows(a + b) == SumFlows(a) + SumFlows(b)
  {
    if |a| > 0 {
      assert (a + b)[1..] == a[1..] + b;
      SumFlowsAppend(a[1..], b);
    } else {
      assert a + b == b;
    }
  }

  /** Negation flips the total: the flows sum to minus what was paid. */
  lemma {:induction false} OutflowsSum(ts: seq<Transaction>)
    ensures SumFlows(Outflows(ts)) == -TotalPaid(ts)
  {
    if |ts| > 0 {
      OutflowsSum(ts[1..]);
      assert Outflows(ts)[1..] == Outflows(ts[1..]);
    }
  }

  /** Finds `a[0]` in a reordering `b` of `a`; what is left on both sides is
      again one reordering of the other. */
  lemma {:induction false} RemoveMatch<T>(a: seq<T>, b: seq<T>) returns (i: nat)
    requires multiset(a) == multiset(b) && |a| > 0
    ensures i < |b| && b[i] == a[0]
    ensures b == b[..i] + [a[0]] + b[i + 1..]
    ensures multiset(a[1..]) == multiset(b[..i] + b[i + 1..])
  {
    var x := a[0];
    assert x in multiset(b);
    i :| 0 <= i < |b| && b[i] == x;
    var left, right := b[..i], b[i + 1..];
    assert b == left + [x] + right;
    assert a == [x] + a[1..];
    assert multiset(b) == multiset(left) + multiset{x} + multiset(right);
    assert multiset(left + right) == multiset(left) + multiset(right);
    assert multiset(a[1..]) == multiset(a) - multiset{x};
    assert multiset(left) + multiset(right) == multiset(b) - multiset{x};
  }

  /** Outflows of two orderings of the same transactions are the same flows,
      possibly in another order. */
  lemma {:induction false} OutflowsPermutation(a: seq<Transaction>, b: seq<Transaction>)
    requires multiset(a) == multiset(b)
    ensures multiset(Outflows(a)) == multiset(Outflows(b))
    decreases |a|
  {
    if |a| == 0 {
      assert |b| == |multiset(b)| == 0;
    } else {
      var x := a[0];
      var i := RemoveMatch(a, b);
      var left, right := b[..i], b[i + 1..];
      OutflowsPermutation(a[1..], left + right);
      OutflowsAppend(left, [x] + right);
      OutflowsAppend([x], right);
      OutflowsAppend(left, right);
      OutflowsAppend([x], a[1..]);
      assert a == [x] + a[1..];
      assert left + ([x] + right) == b;
    }
  }
}
