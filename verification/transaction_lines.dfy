/** The transaction scanner of `extract_transactions`.

    One pass over the statement's lines with three header registers: fund
    name, folio number and ISIN. On each line the three header patterns are
    checked first, each overwriting its register on a match; then, if the
    line matches the transaction-details pattern, a row is emitted carrying
    the three registers and the six captured fields. Afterwards the four
    numeric columns are cleaned as in `clean_column`. */
module TransactionLines {
  import opened Common
  import opened Headers
  import opened LineScan
  import Amounts

  /** The six groups the transaction-details pattern captures, already stripped of surrounding blanks. */
  datatype TxFields = TxFields(
    date: string, description: string, amount: string,
    units: string, price: string, unitBalance: string)

  /** One row of the transaction table, still as text. */
  datatype TxRow = TxRow(
    folio: Option<string>, isin: Option<string>, fund: Option<string>,
    date: string, description: string, amount: string,
    units: string, price: string, unitBalance: string)

  /** The four line patterns the scanner tests, as oracles. */
  datatype TxPatterns = TxPatterns(
    fundName: string -> Option<string>,
    folio: string -> Option<string>,
    isin: string -> Option<string>,
    details: string -> Option<TxFields>)

  /** The three header registers. */
  datatype Registers = Registers(fund: Option<string>, folio: Option<string>, isin: Option<string>)

  /** The header tests of one line, in source order. */
  function Update(regs: Registers, line: string, p: TxPatterns): Registers
  {
    Registers(
      Carry(regs.fund, p.fundName(line)),
      Carry(regs.folio, p.folio(line)),
      Carry(regs.isin, p.isin(line)))
  }

  /** The loop of `extract_transactions` as a scanner over the three registers. */
  function TxScanner(p: TxPatterns): Scanner<Registers, TxFields, TxRow>
  {
    Scanner(
      (regs: Registers, line: string) => Update(regs, line, p),
      p.details,
      (regs: Registers, f: TxFields) =>
        TxRow(regs.folio, regs.isin, regs.fund, f.date, f.description,
              f.amount, f.units, f.price, f.unitBalance))
  }

  /** `clean_column` on the Amount, Units, Price and Unit_balance columns of one row. */
  function CleanRow(row: TxRow): TxRow
  {
    row.(amount := Amounts.CleanAmount(row.amount),
         units := Amounts.CleanAmount(row.units),
         price := Amounts.CleanAmount(row.price),
         unitBalance := Amounts.CleanAmount(row.unitBalance))
  }

  /** `extract_transactions` up to the numeric conversions. */
  function ExtractTransactions(lines: seq<string>, p: TxPatterns): (r: seq<TxRow>)
    ensures |r| == |ScanFrom(lines, Registers(None, None, None), TxScanner(p))|
    ensures forall k :: 0 <= k < |r| ==>
              && Amounts.Cleaned(r[k].amount) && Amounts.Cleaned(r[k].units)
              && Amounts.Cleaned(r[k].price) && Amounts.Cleaned(r[k].unitBalance)
  {
    var rows := ScanFrom(lines, Registers(None, None, None), TxScanner(p));
    seq(|rows|, k requires 0 <= k < |rows| => CleanRow(rows[k]))
  }

  /** Registers a reader would expect after `lines`: for each header kind,
      its last match. */
  function LastHeaders(lines: seq<string>, p: TxPatterns): Registers
  {
    Registers(LastMatch(lines, p.fundName), LastMatch(lines, p.folio), LastMatch(lines, p.isin))
  }

  lemma {:induction false} LastHeadersStep(lines: seq<string>, j: nat, p: TxPatterns)
    requires j < |lines|
    ensures LastHeaders(lines[..j + 1], p) == Update(LastHeaders(lines[..j], p), lines[j], p)
  {
    LastMatchStep(lines, j, p.fundName);
    LastMatchStep(lines, j, p.folio);
    LastMatchStep(lines, j, p.isin);
  }

  /** The registers after any prefix of the lines hold, for each header
      kind, the last match in it. */
  lemma {:induction false} RegistersAreLastHeaders(lines: seq<string>, p: TxPatterns)
    ensures After(lines, Registers(None, None, None), TxScanner(p)) == LastHeaders(lines, p)
    decreases |lines|
  {
    if |lines| > 0 {
      var j := |lines| - 1;
      RegistersAreLastHeaders(lines[..j], p);
      LastHeadersStep(lines, j, p);
      assert lines[..j + 1] == lines;
    }
  }

  /** Exactly one row per line the transaction-details pattern matches, in
      line order; each carries the folio, ISIN and fund captured by the last
      matching header line at or before it (`None` where there is none) and
      the line's own fields, its four numeric fields cleaned. */
  lemma {:induction false} ExtractTransactionsRows(lines: seq<string>, p: TxPatterns)
    ensures |ExtractTransactions(lines, p)| == CountHits(lines, p.details)
    ensures forall i :: 0 <= i < |lines| && p.details(lines[i]).Some? ==>
              var k := CountHits(lines[..i], p.details);
              var f := p.details(lines[i]).value;
              var prefix := lines[..i + 1];
              k < |ExtractTransactions(lines, p)|
              && ExtractTransactions(lines, p)[k]
                 == TxRow(LastMatch(prefix, p.folio), LastMatch(prefix, p.isin), LastMatch(prefix, p.fundName),
                          f.date, f.description,
                          Amounts.CleanAmount(f.amount), Amounts.CleanAmount(f.units),
                          Amounts.CleanAmount(f.price), Amounts.CleanAmount(f.unitBalance))
  {
    ScanRows(lines, Registers(None, None, None), TxScanner(p));
    forall i | 0 <= i < |lines| && p.details(lines[i]).Some?
      ensures After(lines[..i + 1], Registers(None, None, None), TxScanner(p)) == LastHeaders(lines[..i + 1], p)
    {
      RegistersAreLastHeaders(lines[..i + 1], p);
    }
  }
}
