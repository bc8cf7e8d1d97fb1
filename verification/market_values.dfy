/** The valuation scanner of `get_market_value`.

    One pass over the statement's lines. A line matching the fund-name
    pattern sets the current fund; then, if the same line matches the
    market-value pattern, a row (current fund, date, value) is emitted.
    Commas are then stripped from the value column. */
module MarketValues {
  import opened Common
  import opened Headers
  import opened LineScan
  import Amounts

  /** The two groups the market-value pattern captures: the date text and the amount text. */
  datatype MarketValueMatch = MarketValueMatch(date: string, value: string)

  /** One row of the valuation table, still as text. */
  datatype ValuationRow = ValuationRow(fund: Option<string>, date: string, value: string)

  /** The two line patterns the scanner tests, as oracles. */
  datatype ValuationPatterns = ValuationPatterns(
    fundName: string -> Option<string>,
    marketValue: string -> Option<MarketValueMatch>)

  /** The loop of `get_market_value` as a scanner with one register, the
      current fund. */
  function ValuationScanner(p: ValuationPatterns): Scanner<Option<string>, MarketValueMatch, ValuationRow>
  {
    Scanner(
      (fund: Option<string>, line: string) => Carry(fund, p.fundName(line)),
      p.marketValue,
      (fund: Option<string>, m: MarketValueMatch) => ValuationRow(fund, m.date, m.value))
  }

  /** The comma-stripping step on the value column. */
  function StripValueCommas(rows: seq<ValuationRow>): seq<ValuationRow>
  {
    seq(|rows|, k requires 0 <= k < |rows| => rows[k].(value := Amounts.Drop(rows[k].value, ',')))
  }

  /** `get_market_value` up to the numeric and date conversions. */
  function GetMarketValue(lines: seq<string>, p: ValuationPatterns): (r: seq<ValuationRow>)
    ensures |r| == |ScanFrom(lines, None, ValuationScanner(p))|
    ensures forall k :: 0 <= k < |r| ==> ',' !in r[k].value
  {
    StripValueCommas(ScanFrom(lines, None, ValuationScanner(p)))
  }

  /** The fund register after any prefix of the lines holds the last fund
      header in it. */
  lemma {:induction false} FundRegisterIsLastMatch(lines: seq<string>, p: ValuationPatterns)
    ensures After(lines, None, ValuationScanner(p)) == LastMatch(lines, p.fundName)
    decreases |lines|
  {
    if |lines| > 0 {
      var j := |lines| - 1;
      FundRegisterIsLastMatch(lines[..j], p);
      LastMatchStep(lines, j, p.fundName);
      assert lines[..j + 1] == lines;
    }
  }

  /** Exactly one row per line the market-value pattern matches, in line
      order, each stamped with the fund captured by the last fund header at
      or before its line (`None` if there is none), its value stripped of commas. */
  lemma {:induction false} GetMarketValueRows(lines: seq<string>, p: ValuationPatterns)
    ensures |GetMarketValue(lines, p)| == CountHits(lines, p.marketValue)
    ensures forall i :: 0 <= i < |lines| && p.marketValue(lines[i]).Some? ==>
              var k := CountHits(lines[..i], p.marketValue);
              var m := p.marketValue(lines[i]).value;
              k < |GetMarketValue(lines, p)|
              && GetMarketValue(lines, p)[k]
                 == ValuationRow(LastMatch(lines[..i + 1], p.fundName), m.date, Amounts.Drop(m.value, ','))
  {
    ScanRows(lines, None, ValuationScanner(p));
    forall i | 0 <= i < |lines| && p.marketValue(lines[i]).Some?
      ensures After(lines[..i + 1], None, ValuationScanner(p)) == LastMatch(lines[..i + 1], p.fundName)
    {
      FundRegisterIsLastMatch(lines[..i + 1], p);
    }
  }

  /** A line that matches both patterns stamps its own fund: the header
      test runs before the market-value test. */
  lemma {:induction false} SameLineHeaderWins(lines: seq<string>, i: nat, p: ValuationPatterns)
    requires i < |lines| && p.fundName(lines[i]).Some? && p.marketValue(lines[i]).Some?
    ensures CountHits(lines[..i], p.marketValue) < |GetMarketValue(lines, p)|
    ensures GetMarketValue(lines, p)[CountHits(lines[..i], p.marketValue)].fund == p.fundName(lines[i])
  {
    GetMarketValueRows(lines, p);
    LastMatchStep(lines, i, p.fundName);
  }
}
