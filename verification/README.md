# cams2xirr in Dafny

`cams2xirr.py` reads a CAMS mutual-fund statement (as text extracted from a
PDF) and computes internal rates of return: one for the whole portfolio and
one per fund. This project models the deterministic part of that program
and proves properties of it:

- **Amount cleaning** (`clean_column`): a bracketed statement amount `(d)`
  becomes `-` followed by `d` without commas. Commas are deleted, `(`
  becomes `-`, and `)` is deleted — module `Amounts`.
- **The two line scanners** (`get_market_value` and `extract_transactions`).
  Each is one pass over the statement's lines that keeps header registers:
  fund name, plus folio and ISIN for transactions. Each line that matches
  the data pattern emits a row stamped with the current registers. Module
  `LineScan` states this pass once, generic in the registers; `Headers`
  describes one register, and `MarketValues` and `TransactionLines` are the
  two instances. The regular expressions
  are oracles `string -> Option<T>`, passed in as parameters. The model
  checks the register machine, not Python's regex engine.
- **Series assembly** (the main block):
  - Transactions are sorted by date and their amounts negated.
  - The portfolio series closes with one entry dated like the first
    valuation row and worth the sum of all valuations.
  - Each distinct fund name, in order of first appearance, gets its own
    transactions closed by its first valuation row.
  - A failed `.iloc[0]` lookup is an error value.

  Modules `Records`, `DateOrder`, `CashFlows`, `Portfolio`,
  `FundSeriesAssembly` and `Assembly`. Module `Consistency` states when the
  fund series' closing values add up to the portfolio's.
- **The `xnpv` guard and time origin**: a rate at or below -100% yields
  positive infinity, and year fractions are measured from the earliest date.
  The fractional power is a parameter `pow` — module `Npv`.

Dates are day numbers (`int`) and amounts exact `real`s. `None` is
`Option.None`. A pandas comparison `column == fund` is element-wise, and a
missing name never compares equal, not even to a missing key. `SameFund`
models this. It has a consequence: a transaction scanned before any fund
header makes the fund-wise loop fail (`UnnamedTransactionFails`).

The pandas sort is not guaranteed stable, so every assembly property is
stated for an arbitrary permutation with non-decreasing dates
(`IsDateSortOf`). `SortByDate` is one such sort, used to make `Assemble`
executable.

## Model

| member | source | states |
|---|---|---|
| Amounts.Drop | cams2xirr.py:79-81 | a delete pass leaves no occurrence of the character, adds no character, and shortens the text by exactly its occurrence count |
| Amounts.Swap | cams2xirr.py:80 | the `(`→`-` pass keeps the length and rewrites exactly the `(` positions, every other character unchanged |
| Amounts.CleanAmount | cams2xirr.py:75-82 | a cleaned amount contains no `,`, `(` or `)`, and its length is the input's minus its commas and closing parentheses |
| Amounts.CleanAmountIsPerChar | cams2xirr.py:79-81 | the three passes equal the per-character rewrite: `(`→`-`, `,` and `)` dropped, everything else kept in input order |
| Amounts.CleanAmountMinusCount | cams2xirr.py:80 | the output has one `-` for each `-` and each `(` of the input |
| Amounts.CleanAmountIdempotent | cams2xirr.py:79-81 | cleaning an already cleaned amount changes nothing |
| Amounts.PlainAmount | cams2xirr.py:79-81 | an amount without parentheses only loses its commas |
| Amounts.BracketedNegative | cams2xirr.py:75-82 | the bracketed-negative format `(d)`, for any `d` without parentheses, cleans to `-` followed by `d` without commas |
| Headers.LastMatch | cams2xirr.py:101-111 | a register is `None` iff no line so far matched its header pattern, otherwise it holds the capture of the last matching line; `LastMatchStep` is its unfolding as a one-line update |
| LineScan.ScanIsExpected | cams2xirr.py:59-67 | for any registers, update and data pattern, the left-to-right loop yields the rows of the reference description that stamps each matching line with the registers as they stand after it |
| LineScan.ScanRows | cams2xirr.py:103-121 | the loop emits exactly one row per line the data pattern matches, in line order, the row of line i being its capture stamped with the registers after lines 0..i |
| MarketValues.FundRegisterIsLastMatch | cams2xirr.py:57-62 | after any prefix of the lines, the fund register of `get_market_value` holds the last fund header in it |
| MarketValues.GetMarketValue | cams2xirr.py:56-70 | one valuation row per row the loop appends, and no market value contains a comma |
| MarketValues.GetMarketValueRows | cams2xirr.py:56-70 | exactly one valuation row per market-value line, in line order; the row for line i carries the last fund header at or before line i (`None` if none), the captured date and the value with commas removed |
| MarketValues.SameLineHeaderWins | cams2xirr.py:59-67 | a line matching both patterns stamps its row with its own fund header, since the header test runs first |
| TransactionLines.RegistersAreLastHeaders | cams2xirr.py:101-111 | after any prefix of the lines, the fund, folio and ISIN registers hold the last match of their header patterns in it |
| TransactionLines.ExtractTransactions | cams2xirr.py:100-131 | one row per row the loop appends, and no Amount, Units, Price or Unit_balance field contains `,`, `(` or `)` |
| TransactionLines.ExtractTransactionsRows | cams2xirr.py:100-131 | exactly one row per transaction-details line, in line order; the row for line i carries the last folio, ISIN and fund header at or before line i (`None` where none) and that line's fields, with Amount, Units, Price and Unit_balance cleaned |
| DateOrder.InsertByDateSorted | cams2xirr.py:153 | inserting into a date-ordered sequence keeps it date-ordered and one longer |
| DateOrder.InsertByDateAdds | cams2xirr.py:153 | inserting adds exactly the new row and loses none |
| DateOrder.SortByDate | cams2xirr.py:153 | the result is a permutation of the transactions with non-decreasing dates |
| CashFlows.Outflows | cams2xirr.py:156-157 | one flow per transaction, with the same date and the amount negated |
| CashFlows.OutflowsSum | cams2xirr.py:157 | negating every amount negates the total: the flows sum to minus what was paid |
| CashFlows.OutflowsPermutation | cams2xirr.py:153-157 | two orderings of the same transactions give the same multiset of flows |
| Portfolio.Terminal | cams2xirr.py:159-160 | the closing entry is dated like the first valuation row and worth the sum of all market values |
| Portfolio.BuildPortfolioSeries | cams2xirr.py:156-161 | fails iff there is no valuation row; otherwise n+1 entries, entry i < n being transaction i's date with the negated amount, the last (first valuation date, sum of all valuations), dates non-decreasing before it when the input is sorted |
| Portfolio.PortfolioSeriesFlows | cams2xirr.py:153-161 | for any date-sort of the input, the series holds exactly the negated input flows plus the terminal entry |
| Portfolio.PortfolioNetFlow | cams2xirr.py:148-161 | undiscounted, the series sums to total market value minus total paid |
| FundSeriesAssembly.FilterFund | cams2xirr.py:171 | every kept row is an input row of the requested fund |
| FundSeriesAssembly.FilterFundOccurrences | cams2xirr.py:171 | each row is kept as often as it occurs when its fund equals the key, never otherwise |
| FundSeriesAssembly.FilterFundSingle | cams2xirr.py:171 | a single row is kept exactly when its fund compares equal to the key |
| FundSeriesAssembly.FilterFundAppend | cams2xirr.py:171 | filtering distributes over concatenation, so with `FilterFundSingle` the kept rows stay in their relative order |
| FundSeriesAssembly.FilterFundSorted | cams2xirr.py:171 | filtering a date-ordered frame gives a date-ordered frame |
| FundSeriesAssembly.FilterFundPermutation | cams2xirr.py:171 | filtering two orderings of the same rows gives the same rows |
| FundSeriesAssembly.FirstValuation | cams2xirr.py:175-176 | `None` iff no valuation row has the fund; otherwise the first such row |
| FundSeriesAssembly.BuildFundSeries | cams2xirr.py:171-179 | fails with that fund's lookup error iff it has no valuation row; otherwise its filtered transactions negated, closed by (date, value) of its first valuation row |
| FundSeriesAssembly.FundSeriesFlows | cams2xirr.py:171-179 | the transaction part of a fund series is exactly that fund's input transactions negated, in non-decreasing date order, for any date-sort |
| FundSeriesAssembly.DistinctFunds | cams2xirr.py:170 | the distinct fund names, without repeats, each one occurring in the transactions and every occurring name listed |
| FundSeriesAssembly.DistinctFundsFirstAppearanceOrder | cams2xirr.py:170 | the names are listed in order of first appearance |
| FundSeriesAssembly.SeriesForFunds | cams2xirr.py:170-182 | succeeds iff every listed fund has a valuation row, and then yields one series per fund in list order, each that fund's series |
| FundSeriesAssembly.SeriesForFundsFirstFailure | cams2xirr.py:170-175 | a failing loop reports the lookup error of the first fund without a valuation row, every earlier fund having one |
| FundSeriesAssembly.BuildAllFundSeries | cams2xirr.py:170-182 | on failure the error names the fund of some transaction that has no valuation row; on success one series per distinct fund, in order of first appearance, each that fund's series |
| FundSeriesAssembly.AllFundSeriesOutcome | cams2xirr.py:170-179 | the fund-wise loop succeeds iff every transaction's fund has a valuation row, and then yields one series per distinct fund |
| FundSeriesAssembly.UnnamedTransactionFails | cams2xirr.py:171-175 | a transaction with no fund name makes the fund-wise loop fail |
| Assembly.Assemble | cams2xirr.py:148-182 | assembly succeeds iff there is a valuation row and every transaction's fund has one; with no valuation rows it fails with that error; on success the portfolio series has n+1 entries and there is one fund series per distinct fund |
| Records.SameFund | cams2xirr.py:171-175 | element-wise `==` of a fund-name cell with a key: true only when the cell holds a name equal to the key, so a missing name never compares equal, not even to a missing key |
| Assembly.SameRowsSameFunds | cams2xirr.py:153 | sorting does not change which fund names need a valuation row |
| Assembly.FundSeriesPartition | cams2xirr.py:170-171 | when the loop succeeds, the fund series together take in every transaction exactly as often as it occurs |
| Assembly.AssembleExample | cams2xirr.py:151-179 | purchase 1000 on 2020-01-01, redemption 200 on 2021-01-01, value 1000 on 2022-01-01 give the series [(2020-01-01, -1000), (2021-01-01, 200), (2022-01-01, 1000)] for both the portfolio and the fund |
| Consistency.TerminalsAddUp | cams2xirr.py:148-176 | with one valuation row per fund, each for a fund with transactions, and a row for every transaction's fund, the fund-wise loop succeeds and its series' closing values sum to the portfolio's closing value |
| Npv.EarliestDate | cams2xirr.py:25 | the origin is no later than any flow's date and is some flow's date |
| Npv.Xnpv | cams2xirr.py:19-26 | the value is positive infinity iff the rate is at or below -1 |
| Npv.YearFractionsFromEarliest | cams2xirr.py:25-26 | every year fraction from the origin is non-negative and the earliest flow's is zero |
| Npv.XnpvAtZeroRate | cams2xirr.py:26 | at rate zero the value is the plain sum of the amounts |
| Npv.PortfolioXnpvAtZeroRate | cams2xirr.py:19-26 | at rate zero the portfolio series is worth total market value minus total paid |

## Behaviour worth knowing

- Nothing checks that the fund closing values add up to the portfolio's.
  `Consistency.TerminalsAddUp` proves when the two agree: distinct
  valuation funds, each of which has transactions. Outside those conditions
  the sums may differ without any error. For example, a fund with two
  valuation rows is counted twice in the total but once in the fund series.
- A missing valuation raises only after the portfolio rate has been
  computed and printed. `Assemble` returns the error for the whole
  assembly; `BuildPortfolioSeries` alone shows that the portfolio series
  does not depend on the fund lookups.

## Left out

- PDF opening, decryption and text extraction (`extract_text_from_pdf`): I/O
  through a PDF library. The scanners take the statement as a sequence of
  lines. `splitlines` is not modelled.
- The regular expressions themselves (fund name, market value, folio, ISIN,
  transaction details). They are oracles, so their Python-specific
  semantics are not modelled: lazy quantifiers, lookahead, the possessive
  `{3,}+`, `search` versus `match`. Each oracle returns the captured text
  directly, so `group(0)`, `group(1)` and `group(3)` and the `.strip()` of
  the six transaction fields are folded into the oracle.
- DataFrame construction, `to_datetime` date parsing and `astype(float)`
  number parsing. `Records` works on already converted rows, with dates as
  day numbers and amounts as exact reals. 64-bit floating-point rounding in
  the sums is therefore not modelled.
- `Npv.Xnpv`: the fractional power `(1 + rate) ** t` is a parameter
  assumed positive for a positive base. Only the guard, the time origin and
  the value at rate zero are stated. Float overflow or underflow of the
  power is not modelled.
- `xirr`: the root finder is a foreign numerical solver whose convergence
  cannot be stated. When it does not converge it raises and ends the whole
  run, for the portfolio or for any fund. Such a failure can come before a
  later fund's missing valuation, which the model would report instead.
- The positional assignment of the per-fund rates to the valuation table,
  rounding, printing and argument parsing. Because the assignment is by
  position, rates can land next to the wrong fund when the valuation rows
  are not in first-transaction order. It raises when the number of funds
  differs from the number of valuation rows.
- TransactionLines.ExtractTransactionsRows: assumes that `clean_column(df[col])`
  rewrites the frame's own column, as it does while `df[col]` is a view of
  the frame. Under pandas' copy-on-write mode, the default from pandas 3.0,
  the in-place replacements change a copy only. The following
  `astype(float)` then raises on any amount containing `,` or `(`. The
  source pins no pandas version, so the model follows the view behaviour.
- The stable order of equal dates: the sort is specified only as a
  permutation with non-decreasing dates.
