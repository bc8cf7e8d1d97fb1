/** Ordering transactions by date (`sort_values(by='Date')`).

    The library sort is not stable, so all that is promised of it is a
    permutation with non-decreasing dates; `SortByDate` is one such sort and
    the assembly lemmas are stated for any sequence with that property. */
module DateOrder {
  import opened Records

  predicate SortedByDate(ts: seq<Transaction>)
  {
    forall i, j :: 0 <= i < j < |ts| ==> ts[i].date <= ts[j].date
  }

  /** `sorted` is an admissible outcome of sorting `ts` by date. */
  predicate IsDateSortOf(sorted: seq<Transaction>, ts: seq<Transaction>)
  {
    SortedByDate(sorted) && multiset(sorted) == multiset(ts)
  }

  /** Inserts `t` before the first row dated no earlier than it. */
  function InsertByDate(t: Transaction, ts: seq<Transaction>): seq<Transaction>
  {
    if |ts| == 0 || t.date <= ts[0].date then [t] + ts
    else [ts[0]] + InsertByDate(t, ts[1..])
  }

  /** Inserting into a date-ordered sequence keeps it date-ordered; the
      first row is the new one or the old first one. */
  lemma {:induction false} InsertByDateSorted(t: Transaction, ts: seq<Transaction>)
    requires SortedByDate(ts)
    ensures SortedByDate(InsertByDate(t, ts))
    ensures |InsertByDate(t, ts)| == |ts| + 1
    ensures InsertByDate(t, ts)[0] == t || (|ts| > 0 && InsertByDate(t, ts)[0] == ts[0])
  {
    if |ts| > 0 && t.date > ts[0].date {
      var tail := ts[1..];
      assert forall i :: 0 <= i < |tail| ==> tail[i] == ts[i + 1];
      InsertByDateSorted(t, tail);
      var rest := InsertByDate(t, tail);
      var r := [ts[0]] + rest;
      assert ts[0].date <= rest[0].date;
      forall i, j | 0 <= i < j < |r| ensures r[i].date <= r[j].date {
        assert r[j] == rest[j - 1];
        assert rest[0].date <= rest[j - 1].date;
        if i > 0 {
          assert r[i] == rest[i - 1];
        }
      }
    }
  }

  /** Inserting adds exactly the new row. */
  lemma {:induction false} InsertByDateAdds(t: Transaction, ts: seq<Transaction>)
    ensures multiset(InsertByDate(t, ts)) == multiset(ts) + multiset{t}
  {
    if |ts| > 0 && t.date > ts[0].date {
      InsertByDateAdds(t, ts[1..]);
      assert ts == [ts[0]] + ts[1..];
    }
  }

  /** Sorts transactions by date. */
  function SortByDate(ts: seq<Transaction>): (r: seq<Transaction>)
    ensures IsDateSortOf(r, ts)
  {
    if |ts| == 0 then []
    else
      var rest := SortByDate(ts[1..]);
      assert ts == [ts[0]] + ts[1..];
      InsertByDateSorted(ts[0], rest);
      InsertByDateAdds(ts[0], rest);
      InsertByDate(ts[0], rest)
  }
}
