# TableDataCalc in Dafny

`totalCalc.js` is a browser console script. It sums the amounts and expenses of the
rows of an HTML table whose date cell holds a given date. It has three functions:

- `calculateTableTotals(targetDate, options)` checks that the date is written `DD/MM/YYYY`. It then walks every row once:
  - it skips rows that have too few cells;
  - it keeps the rows whose trimmed date cell is exactly the target;
  - it cuts the currency sign out of the amount cell with `replace`;
  - it parses the three numeric cells with `parseFloat(...) || 0`;
  - it adds the amount, the two expenses and the net to running totals and counts the row.

  It returns null when the date is malformed or no row matched. Otherwise it returns the totals, the count and the three averages.
- `calculateMultipleDates(dates, options)` runs the aggregator once per date, in order. It keeps every non-null result.
- `analyzeTableStructure()` returns the number of header cells, or 0 when there is no header row. It also returns the trimmed texts of the cells of the first body row, or an empty list when there is no body row.

The model replaces the page by plain values:
- the rows as a `seq<seq<string>>` (each row is the text of its `td` cells);
- the header row and the first body row as `Option<seq<string>>`.

Numbers are exact `real`s.

The project has five modules:
- `Wrappers` holds `Option`.
- `Strings` models `trim()` over the ECMAScript whitespace set, `indexOf`, and `replace(symbol, '')` with a string pattern.
- `Numbers` models `parseFloat` as a decimal-prefix reader and the `|| 0` fallback.
- `TotalCalc` models the three functions:
  - `CalculateTableTotals` is a method with the `forEach` loop over the running totals; its loop invariant ties those totals to the fold `Accumulate`;
  - the fold is explained by an independent account that filters the rows first and then adds up (`MatchingRows`, `AmountSum`, `ExpenseSum`);
  - `CalculateMultipleDates` is a method with the collecting loop, specified by `CollectTotals`;
  - `AnalyzeTableStructure` is a function.
- `Scenarios` states what the model gives for small tables of the default shape, among them the two worked examples written out in full.

Three facts about `analyzeTableStructure` that the model keeps:
- it reads the first body row whether or not there is a header row, so a table with no header still reports its sample cells (with `totalColumns` 0);
- the sample cells are the trimmed texts, not the literal ones;
- the header labels are only logged, never returned.

## Model

| member | source | states |
|---|---|---|
| Strings.TrimStartSpec | totalCalc.js:32 | the leading-whitespace strip keeps a suffix that does not start with whitespace and drops only whitespace |
| Strings.TrimEndSpec | totalCalc.js:32 | the trailing-whitespace strip keeps a prefix that does not end with whitespace and drops only whitespace |
| Strings.TrimSpec | totalCalc.js:32 | `trim()` leaves no whitespace at either end, and the cell is its trim with whitespace in front and behind |
| Strings.TrimPadded | totalCalc.js:32 | whitespace around a text with unpadded ends is exactly what `trim()` removes, so the trim is the one unpadded core |
| Strings.TrimUnpadded | totalCalc.js:36-38 | a text with no whitespace at either end is its own trim; trimming twice is trimming once |
| Strings.IndexOfSpec | totalCalc.js:40 | `indexOf` finds an occurrence with none before it, or reports that the pattern occurs nowhere |
| Strings.RemoveFirstSpec | totalCalc.js:40 | `replace(symbol, '')` cuts out exactly the first occurrence, and returns the text unchanged when the symbol does not occur |
| Strings.RemoveLeading | totalCalc.js:40 | a leading currency symbol is cut off the front and nothing else changes |
| Numbers.ParseFloat | totalCalc.js:40-42 | `parseFloat` of an empty or blank text is NaN, and a number is only ever read from text that holds a digit |
| Numbers.ParseSkipsWhitespace | totalCalc.js:40-42 | whitespace in front of the text does not change what `parseFloat` reads |
| Numbers.ParseOrZeroFallback | totalCalc.js:40-42 | `parseFloat(x) \|\| 0` is 0 exactly when `parseFloat` gives NaN or 0, so NaN cannot be told from 0; any other number is kept as it is |
| Numbers.ParseNoDigits | totalCalc.js:40-42 | text that starts with no sign, digit, whitespace or '.'-and-digit is NaN (other than `Infinity`, which the model does not read), and the fallback makes it 0 |
| Numbers.ParseDecimal | totalCalc.js:40-42 | digits, '.', fraction digits and any non-digit tail parse to integer part plus fraction |
| Numbers.ParseWhole | totalCalc.js:41-42 | digits followed by anything that does not continue the number parse to the whole number they spell |
| Numbers.ParseNegative | totalCalc.js:41-42 | a leading '-' negates the number that follows |
| Numbers.ParseNumeral | totalCalc.js:41-42 | a plain numeral, after the fallback, is the number it spells |
| Numbers.ParseDecimalRoundTrip | totalCalc.js:40-42 | reading back the decimal numeral of any natural number gives that number |
| TotalCalc.IsDateFormat | totalCalc.js:20-21 | a date that passes the `DD/MM/YYYY` test has ten characters and no whitespace at either end |
| TotalCalc.DateFormatSpec | totalCalc.js:20-21 | the test accepts exactly the texts made of two digits, '/', two digits, '/', four digits |
| TotalCalc.MaxColumn | totalCalc.js:31 | `Math.max` of the four column indices: at least each of them and equal to one of them |
| TotalCalc.Amount | totalCalc.js:36-40 | the amount of a cell in which the currency symbol does not occur is that trimmed cell parsed with the fallback |
| TotalCalc.AmountAfterSymbol | totalCalc.js:36-40 | an amount cell that starts with the currency symbol is worth the text after the symbol |
| TotalCalc.RowExpenses | totalCalc.js:37-45 | a blank expense cell counts as 0, so the row's expenses are then the other cell alone |
| TotalCalc.Step | totalCalc.js:31-52 | one pass of the loop body counts at most one more row and keeps net = amount - expenses |
| TotalCalc.Accumulate | totalCalc.js:29-63 | after the loop no more rows are counted than the table has, and net = amount - expenses |
| TotalCalc.MatchingRowsSpec | totalCalc.js:31-34 | a row counts exactly when it has every column and its trimmed date cell equals the target as a string |
| TotalCalc.PaddedDateMatches | totalCalc.js:32-34 | a date cell holding the target with any whitespace around it matches, given the bounds guard |
| TotalCalc.NonMatchingRowIgnored | totalCalc.js:31 | a row that is too short or has another date leaves every total and the count unchanged, wherever it stands |
| TotalCalc.AccumulateMeaning | totalCalc.js:45-52 | after the loop: the count is the number of matching rows, the totals are the sums over exactly those rows, and net = amount - expenses |
| TotalCalc.TableTotals | totalCalc.js:19-90 | null for a malformed date; a returned object names the target date and counts at least one and at most every row |
| TotalCalc.TableTotalsSpec | totalCalc.js:65-90 | null exactly for a malformed date or no matching row; otherwise the target date, a positive count of matching rows, the totals over exactly those rows, net = amount - expenses, and each average its total divided by the count |
| TotalCalc.CalculateTableTotals | totalCalc.js:4-91 | the loop over the rows, with its guard, trim, parse and accumulation, returns `TableTotals`; it looks at no row when the date is malformed and at every row otherwise |
| TotalCalc.CollectTotals | totalCalc.js:94-105 | no more results than dates, and every result's date is one of the dates |
| TotalCalc.KeptAreResults | totalCalc.js:98-100 | the i-th result is the aggregator's summary for the i-th kept date |
| TotalCalc.KeptIncrease | totalCalc.js:98-100 | the kept dates' positions increase, so results follow the order of the dates |
| TotalCalc.KeptComplete | totalCalc.js:98-100 | every date whose aggregate is non-null is kept |
| TotalCalc.CollectTotalsOrder | totalCalc.js:94-105 | the results are exactly the non-null summaries, one per such date, in input order |
| TotalCalc.CalculateMultipleDates | totalCalc.js:94-105 | the loop that calls `CalculateTableTotals` per date and pushes non-null results returns `CollectTotals` |
| TotalCalc.TrimAll | totalCalc.js:129 | one entry per cell, each the trim of that cell |
| TotalCalc.AnalyzeTableStructure | totalCalc.js:127-130 | the header cell count or 0; the trimmed first-body-row cells, one per cell, or an empty list when there is no body row |
| TotalCalc.SampleDataTrimmed | totalCalc.js:129 | each sample has no whitespace at either end, is its own trim, and is its cell with whitespace around it |
| Scenarios.NumeralCell | totalCalc.js:41-42 | a numeral expense cell is worth the number it spells |
| Scenarios.PoundCellText | totalCalc.js:36-40 | a "£" cell, trimmed and with the sign cut out, leaves the text after the sign |
| Scenarios.PoundCell | totalCalc.js:40 | "£" and pounds parses to the pounds |
| Scenarios.PoundPenceCell | totalCalc.js:40 | "£", pounds, '.' and pence parses to pounds plus the fraction |
| Scenarios.SampleRowValues | totalCalc.js:5-12 | the default columns read the amount from cell 6 and the expenses from cells 10 and 11 of a 13-cell row |
| Scenarios.SampleRowMatches | totalCalc.js:31-34 | a 13-cell row whose date cell is the target matches under the default options |
| Scenarios.OtherDateIgnored | totalCalc.js:34 | a row with another well-formed date does not match |
| Scenarios.OneMatchingRow | totalCalc.js:45-52 | one matching row: the totals are its amount, its expenses and their difference, with a count of 1 |
| Scenarios.TwoMatchingRows | totalCalc.js:45-52 | two matching rows: the totals are the two rows' values added, with a count of 2 |
| Scenarios.OneRowSummary | totalCalc.js:81-90 | from final variables with a count of 1, the returned object has each average equal to its total |
| Scenarios.TwoRowSummary | totalCalc.js:81-90 | from final variables with a count of 2, the returned object has each average half its total |
| Scenarios.SingleRowSummary | totalCalc.js:65-90 | a well-formed date whose matching rows add up to 150, 75 and 75 over one row returns exactly that object, averages 150, 75 and 75 |
| Scenarios.TwoRowsSummary | totalCalc.js:65-90 | a well-formed date whose matching rows add up to 300, 30 and 270 over two rows returns exactly that object, averages 150, 15 and 135 |
| Scenarios.PenceAmountExample | totalCalc.js:40 | "£150.00" is 150 |
| Scenarios.ExpensesExample | totalCalc.js:41-45 | "50" and "25" add up to 75 |
| Scenarios.HundredPoundsExample | totalCalc.js:40 | "£100" is 100 |
| Scenarios.TwoHundredPoundsExample | totalCalc.js:40 | "£200" is 200 |
| Scenarios.TwoRowExpensesExample | totalCalc.js:41-45 | "10" and "0" add up to 10, "0" and "20" to 20 |
| Scenarios.SingleRowAccumulates | totalCalc.js:29-63 | one row on 01/01/2025 of "£150.00", "50" and "25" gives totals 150, 75 and 75 over one row |
| Scenarios.TwoRowsAccumulate | totalCalc.js:29-63 | rows "£100", "10", "0" and "£200", "0", "20" on 01/01/2025 give totals 300, 30 and 270 over two rows |
| Scenarios.SingleRowExample | totalCalc.js:4-91 | one row on 01/01/2025 of "£150.00", "50" and "25" returns totals 150, 75 and 75, a count of 1 and averages 150, 75 and 75 |
| Scenarios.TwoRowsExample | totalCalc.js:4-91 | rows "£100", "10", "0" and "£200", "0", "20" on 01/01/2025 return totals 300, 30 and 270, a count of 2 and averages 150, 15 and 135 |
| Scenarios.OtherDatesOnlyIsNull | totalCalc.js:65-68 | a table whose only row has another date gives null |
| Scenarios.ShortDateRefused | totalCalc.js:20-24 | "1/1/2025" is refused as malformed, whatever the table holds |
| Scenarios.DoubledSymbolIsZero | totalCalc.js:40 | with "££5" only the first sign is cut, the rest is NaN, and the amount is 0 |
| Scenarios.MultipleDatesDropsEmpty | totalCalc.js:98-100 | of two dates, where only the first has a summary, only that summary is collected |

## Left out

- Page access (`document.querySelectorAll`, `querySelector`, `textContent`) is not modelled: the rows, the header row and the first body row are parameters. Which rows `tr`, `thead tr` and `tbody tr` select is not visible in this file.
- Console output (totalCalc.js:22, 26, 54-60, 66, 71-79, 95, 101, 109-125), including `toFixed(2)` formatting, is not modelled. It is display only, and `showDetails` only switches it, so no result depends on that option.
- IEEE-754 doubles are not modelled: amounts are exact reals. net = amount - expenses holds exactly here, but not always bit for bit in doubles.
- Numbers.ParseFloat: reads only optional leading whitespace, an optional sign, digits, an optional '.' and fraction digits. It does not read exponents ("1e3" is 1 here and 1000 in JavaScript) or `Infinity`. The `|| 0` fallback maps -0 to 0 too, which reals cannot show.
- Option values are natural numbers and strings given in full. Negative, fractional or non-numeric column indices are not modelled, nor is the destructuring of a partial options object. Every option left out takes its value from `DefaultOptions`.
