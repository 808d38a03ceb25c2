/** The three functions of totalCalc.js with the page abstracted away: the table is
    the sequence of its rows, each row the sequence of its cells' text. */
module TotalCalc {

  import opened Wrappers
  import opened Strings
  import opened Numbers

  /** The options object of `calculateTableTotals`: zero-based column indices, the
      currency symbol cut out of the amount cell, and the detail flag (which only
      controls console output, so no result below depends on it). */
  datatype Options = Options(
    dateColumn: nat,
    amountColumn: nat,
    expenseColumn1: nat,
    expenseColumn2: nat,
    currencySymbol: string,
    showDetails: bool)

  /** The defaults that destructuring fills in for missing options. */
  const DefaultOptions := Options(12, 6, 10, 11, "£", false)

  /** The text content of a row's `td` cells, in order. */
  type Row = seq<string>

  /** The object `calculateTableTotals` returns when some row matches. */
  datatype Summary = Summary(
    date: string,
    totalAmount: real,
    totalExpenses: real,
    totalNet: real,
    rowCount: nat,
    averageAmount: real,
    averageExpenses: real,
    averageNet: real)

  /** The object `analyzeTableStructure` returns. */
  datatype StructureReport = StructureReport(totalColumns: nat, sampleData: seq<string>)

  // ---------------------------------------------------------------------------
  // Row selection and cell values
  // ---------------------------------------------------------------------------

  /** The regular expression `^\d{2}\/\d{2}\/\d{4}$`: two ASCII digits, '/', two
      digits, '/', four digits and nothing else. A date of that form has no
      whitespace at either end, so `trim()` leaves it as it is. */
  predicate IsDateFormat(s: string)
    ensures IsDateFormat(s) ==> |s| == 10 && Unpadded(s)
  {
    |s| == 10
    && IsDigit(s[0]) && IsDigit(s[1]) && s[2] == '/'
    && IsDigit(s[3]) && IsDigit(s[4]) && s[5] == '/'
    && AllDigits(s[6..])
  }

  /** `s` is the day `d`, the month `m` and the year `y` joined by slashes. */
  predicate DateParts(s: string, d: string, m: string, y: string)
  {
    |d| == 2 && |m| == 2 && |y| == 4 && AllDigits(d) && AllDigits(m) && AllDigits(y)
    && s == d + "/" + m + "/" + y
  }

  /** The date test accepts exactly two digits, a slash, two digits, a slash and
      four digits. */
  lemma DateFormatSpec(s: string)
    ensures IsDateFormat(s) <==> exists d, m, y :: DateParts(s, d, m, y)
  {
    if IsDateFormat(s) {
      var d, m, y := s[..2], s[3..5], s[6..];
      assert s == d + "/" + m + "/" + y;
      assert DateParts(s, d, m, y);
    }
    if exists d, m, y :: DateParts(s, d, m, y) {
      var d, m, y :| DateParts(s, d, m, y);
      assert s[0] == d[0] && s[1] == d[1] && s[3] == m[0] && s[4] == m[1];
      assert s[6..] == y;
    }
  }

  /** `Math.max` of the four configured column indices. */
  function MaxColumn(o: Options): (m: nat)
    ensures m >= o.dateColumn && m >= o.amountColumn
    ensures m >= o.expenseColumn1 && m >= o.expenseColumn2
    ensures m == o.dateColumn || m == o.amountColumn || m == o.expenseColumn1 || m == o.expenseColumn2
  {
    var a := if o.dateColumn >= o.amountColumn then o.dateColumn else o.amountColumn;
    var b := if o.expenseColumn1 >= o.expenseColumn2 then o.expenseColumn1 else o.expenseColumn2;
    if a >= b then a else b
  }

  /** The bounds guard: the row has a cell at every configured column. */
  predicate HasColumns(row: Row, o: Options)
  {
    |row| > MaxColumn(o)
  }

  /** A row takes part when it has every column and its trimmed date cell is,
      character for character, the target date. */
  predicate Matches(row: Row, targetDate: string, o: Options)
  {
    HasColumns(row, o) && Trim(row[o.dateColumn]) == targetDate
  }

  /** The amount: the trimmed cell with its first currency symbol cut out, parsed,
      0 when it does not parse. A cell without the symbol is parsed as it is. */
  function Amount(row: Row, o: Options): (v: real)
    requires HasColumns(row, o)
    ensures var cell := Trim(row[o.amountColumn]);
      IndexOf(cell, o.currencySymbol) == None ==> v == ParseOrZero(cell)
  {
    ParseOrZero(RemoveFirst(Trim(row[o.amountColumn]), o.currencySymbol))
  }

  /** An amount cell that starts with the currency symbol is worth what follows
      the symbol. */
  lemma AmountAfterSymbol(row: Row, o: Options, rest: string)
    requires HasColumns(row, o) && Trim(row[o.amountColumn]) == o.currencySymbol + rest
    ensures Amount(row, o) == ParseOrZero(rest)
  {
    RemoveLeading(o.currencySymbol, rest);
  }

  /** The two expense cells, each parsed with the same fallback, added up: a blank
      expense cell counts as 0. */
  function RowExpenses(row: Row, o: Options): (v: real)
    requires HasColumns(row, o)
    ensures Trim(row[o.expenseColumn1]) == [] ==> v == ParseOrZero(Trim(row[o.expenseColumn2]))
    ensures Trim(row[o.expenseColumn2]) == [] ==> v == ParseOrZero(Trim(row[o.expenseColumn1]))
  {
    ParseOrZero(Trim(row[o.expenseColumn1])) + ParseOrZero(Trim(row[o.expenseColumn2]))
  }

  // ---------------------------------------------------------------------------
  // The accumulation, as the loop performs it
  // ---------------------------------------------------------------------------

  /** The loop's four running variables. */
  datatype Totals = Totals(amount: real, expenses: real, net: real, count: nat)

  /** One loop iteration on one row. It counts at most one more row and keeps
      the net total equal to the amount total less the expense total. */
  function Step(t: Totals, row: Row, targetDate: string, o: Options): (r: Totals)
    ensures r.count <= t.count + 1
    ensures t.net == t.amount - t.expenses ==> r.net == r.amount - r.expenses
  {
    if Matches(row, targetDate, o) then
      var amount := Amount(row, o);
      var rowExpenses := RowExpenses(row, o);
      Totals(t.amount + amount, t.expenses + rowExpenses, t.net + (amount - rowExpenses), t.count + 1)
    else t
  }

  /** The running variables after the loop has visited `rows`, in order: no more
      rows counted than there are, and net = amount - expenses throughout. */
  function Accumulate(rows: seq<Row>, targetDate: string, o: Options): (t: Totals)
    ensures t.count <= |rows|
    ensures t.net == t.amount - t.expenses
  {
    if rows == [] then Totals(0.0, 0.0, 0.0, 0)
    else Step(Accumulate(rows[..|rows| - 1], targetDate, o), rows[|rows| - 1], targetDate, o)
  }

  // ---------------------------------------------------------------------------
  // An independent account of the totals: filter, then add up
  // ---------------------------------------------------------------------------

  /** Every row of `rs` has all the configured columns. */
  predicate AllHaveColumns(rs: seq<Row>, o: Options)
  {
    forall k :: 0 <= k < |rs| ==> HasColumns(rs[k], o)
  }

  /** The rows that take part, in table order. */
  function MatchingRows(rows: seq<Row>, targetDate: string, o: Options): (m: seq<Row>)
    ensures |m| <= |rows| && AllHaveColumns(m, o)
  {
    if rows == [] then []
    else
      var rest := MatchingRows(rows[1..], targetDate, o);
      if Matches(rows[0], targetDate, o) then [rows[0]] + rest else rest
  }

  /** A row is among the matching rows exactly when it is a row of the table and
      it matches: string equality of the trimmed date cell, not calendar equality. */
  lemma {:induction false} MatchingRowsSpec(rows: seq<Row>, targetDate: string, o: Options)
    ensures var m := MatchingRows(rows, targetDate, o);
      (forall k :: 0 <= k < |m| ==> Matches(m[k], targetDate, o))
      && (forall r :: r in m <==> r in rows && Matches(r, targetDate, o))
  {
    if rows != [] {
      MatchingRowsSpec(rows[1..], targetDate, o);
      assert forall r :: r in rows <==> r == rows[0] || r in rows[1..];
    }
  }

  /** The sum of the amounts of `rs`. */
  function AmountSum(rs: seq<Row>, o: Options): real
    requires AllHaveColumns(rs, o)
  {
    if rs == [] then 0.0 else Amount(rs[0], o) + AmountSum(rs[1..], o)
  }

  /** The sum of both expenses of every row of `rs`. */
  function ExpenseSum(rs: seq<Row>, o: Options): real
    requires AllHaveColumns(rs, o)
  {
    if rs == [] then 0.0 else RowExpenses(rs[0], o) + ExpenseSum(rs[1..], o)
  }

  /** Filtering distributes over concatenation. */
  lemma {:induction false} MatchingConcat(a: seq<Row>, b: seq<Row>, targetDate: string, o: Options)
    ensures MatchingRows(a + b, targetDate, o)
         == MatchingRows(a, targetDate, o) + MatchingRows(b, targetDate, o)
  {
    if a == [] {
      assert a + b == b;
    } else {
      assert (a + b)[0] == a[0];
      assert (a + b)[1..] == a[1..] + b;
      MatchingConcat(a[1..], b, targetDate, o);
    }
  }

  /** Adding up distributes over concatenation. */
  lemma {:induction false} SumsConcat(a: seq<Row>, b: seq<Row>, o: Options)
    requires AllHaveColumns(a, o) && AllHaveColumns(b, o)
    ensures AllHaveColumns(a + b, o)
    ensures AmountSum(a + b, o) == AmountSum(a, o) + AmountSum(b, o)
    ensures ExpenseSum(a + b, o) == ExpenseSum(a, o) + ExpenseSum(b, o)
  {
    if a == [] {
      assert a + b == b;
    } else {
      assert (a + b)[0] == a[0];
      assert (a + b)[1..] == a[1..] + b;
      SumsConcat(a[1..], b, o);
    }
  }

  /** What the loop computes: the row count is the number of matching rows, the
      totals are the sums over exactly those rows, and the net total is the amount
      total less the expense total. */
  lemma {:induction false} AccumulateMeaning(rows: seq<Row>, targetDate: string, o: Options)
    ensures var t := Accumulate(rows, targetDate, o);
      var m := MatchingRows(rows, targetDate, o);
      t.count == |m| && t.amount == AmountSum(m, o) && t.expenses == ExpenseSum(m, o)
      && t.net == t.amount - t.expenses
  {
    if rows != [] {
      var init, last := rows[..|rows| - 1], rows[|rows| - 1];
      assert rows == init + [last];
      AccumulateMeaning(init, targetDate, o);
      MatchingConcat(init, [last], targetDate, o);
      var m0 := MatchingRows(init, targetDate, o);
      var m1 := MatchingRows([last], targetDate, o);
      SumsConcat(m0, m1, o);
      OneRowSums(last, targetDate, o);
    }
  }

  /** The matching rows of a one-row table, and their sums. */
  lemma OneRowSums(row: Row, targetDate: string, o: Options)
    ensures var m := MatchingRows([row], targetDate, o);
      && (Matches(row, targetDate, o) ==>
            |m| == 1 && AmountSum(m, o) == Amount(row, o) && ExpenseSum(m, o) == RowExpenses(row, o))
      && (!Matches(row, targetDate, o) ==> m == [])
  {
    assert [row][1..] == [];
    var m := MatchingRows([row], targetDate, o);
    if Matches(row, targetDate, o) {
      assert m == [row];
      assert m[1..] == [];
    }
  }

  /** A row that does not match (in particular one too short to have every
      column) changes nothing, wherever it stands in the table. */
  lemma NonMatchingRowIgnored(a: seq<Row>, row: Row, b: seq<Row>, targetDate: string, o: Options)
    requires !Matches(row, targetDate, o)
    ensures Accumulate(a + [row] + b, targetDate, o) == Accumulate(a + b, targetDate, o)
  {
    MatchingConcat(a + [row], b, targetDate, o);
    MatchingConcat(a, [row], targetDate, o);
    MatchingConcat(a, b, targetDate, o);
    assert [row][1..] == [];
    assert MatchingRows([row], targetDate, o) == [];
    assert MatchingRows(a + [row], targetDate, o) == MatchingRows(a, targetDate, o);
    AccumulateMeaning(a + [row] + b, targetDate, o);
    AccumulateMeaning(a + b, targetDate, o);
  }

  /** A cell holding the target date, with any whitespace around it, matches when
      the row has every column. */
  lemma PaddedDateMatches(row: Row, targetDate: string, w1: string, w2: string, o: Options)
    requires IsDateFormat(targetDate) && HasColumns(row, o)
    requires AllWhitespace(w1) && AllWhitespace(w2)
    requires row[o.dateColumn] == w1 + targetDate + w2
    ensures Matches(row, targetDate, o)
  {
    assert !IsWhitespace(targetDate[0]) && !IsWhitespace(targetDate[9]) by {
      assert targetDate[9] == targetDate[6..][3];
    }
    TrimPadded(w1, targetDate, w2);
  }

  // ---------------------------------------------------------------------------
  // calculateTableTotals
  // ---------------------------------------------------------------------------

  /** `s` is the summary of the rows `m` for `targetDate`. */
  predicate Summarises(s: Summary, targetDate: string, m: seq<Row>, o: Options)
  {
    && AllHaveColumns(m, o)
    && s.date == targetDate
    && s.rowCount == |m| && s.rowCount > 0
    && s.totalAmount == AmountSum(m, o)
    && s.totalExpenses == ExpenseSum(m, o)
    && s.totalNet == s.totalAmount - s.totalExpenses
    && s.averageAmount == s.totalAmount / s.rowCount as real
    && s.averageExpenses == s.totalExpenses / s.rowCount as real
    && s.averageNet == s.totalNet / s.rowCount as real
  }

  /** The object built from the loop's final variables: null when no row was
      counted. */
  function Summarize(targetDate: string, t: Totals): Option<Summary>
  {
    if t.count == 0 then None
    else
      var n := t.count as real;
      Some(Summary(targetDate, t.amount, t.expenses, t.net, t.count,
                   t.amount / n, t.expenses / n, t.net / n))
  }

  /** The value `calculateTableTotals(targetDate, options)` returns on a table:
      null for a malformed date; otherwise a summary names the target date,
      counts between one row and every row, and has net = amount - expenses. */
  function TableTotals(targetDate: string, rows: seq<Row>, o: Options): (r: Option<Summary>)
    ensures !IsDateFormat(targetDate) ==> r == None
    ensures r.Some? ==> r.value.date == targetDate && 0 < r.value.rowCount <= |rows|
  {
    if !IsDateFormat(targetDate) then None
    else Summarize(targetDate, Accumulate(rows, targetDate, o))
  }

  /** The result policy: None (null) exactly for a malformed date or when no row
      matches; otherwise the date, the count of matching rows, the totals over
      exactly those rows with net = amount - expenses, and each average its total
      divided by the count. */
  lemma TableTotalsSpec(targetDate: string, rows: seq<Row>, o: Options)
    ensures var r := TableTotals(targetDate, rows, o);
      var m := MatchingRows(rows, targetDate, o);
      (r.None? <==> !IsDateFormat(targetDate) || m == [])
      && (r.Some? ==> Summarises(r.value, targetDate, m, o))
  {
    AccumulateMeaning(rows, targetDate, o);
  }

  /** `calculateTableTotals`: validate the date, then one pass over the rows that
      updates the running totals, then the summary. `examined` counts the rows the
      loop looks at: none when the date is malformed. */
  method CalculateTableTotals(targetDate: string, rows: seq<Row>, o: Options)
    returns (result: Option<Summary>, ghost examined: nat)
    ensures result == TableTotals(targetDate, rows, o)
    ensures examined == if IsDateFormat(targetDate) then |rows| else 0
  {
    var totalAmount, totalExpenses, totalNet, rowCount := 0.0, 0.0, 0.0, 0;
    examined := 0;
    if !IsDateFormat(targetDate) {
      return None, examined;
    }
    var i := 0;
    while i < |rows|
      invariant 0 <= i <= |rows| && examined == i
      invariant Totals(totalAmount, totalExpenses, totalNet, rowCount)
             == Accumulate(rows[..i], targetDate, o)
    {
      var cells := rows[i];
      ghost var before := Totals(totalAmount, totalExpenses, totalNet, rowCount);
      examined := examined + 1;
      if |cells| > MaxColumn(o) {
        var rowDate := Trim(cells[o.dateColumn]);
        if rowDate == targetDate {
          var amount := ParseOrZero(RemoveFirst(Trim(cells[o.amountColumn]), o.currencySymbol));
          var expense1 := ParseOrZero(Trim(cells[o.expenseColumn1]));
          var expense2 := ParseOrZero(Trim(cells[o.expenseColumn2]));
          var rowExpenses := expense1 + expense2;
          var rowNet := amount - rowExpenses;
          totalAmount := totalAmount + amount;
          totalExpenses := totalExpenses + rowExpenses;
          totalNet := totalNet + rowNet;
          rowCount := rowCount + 1;
        }
      }
      assert Totals(totalAmount, totalExpenses, totalNet, rowCount) == Step(before, cells, targetDate, o);
      assert rows[..i + 1][..i] == rows[..i];
      i := i + 1;
    }
    assert rows[..i] == rows;
    if rowCount == 0 {
      return None, examined;
    }
    result := Some(Summary(targetDate, totalAmount, totalExpenses, totalNet, rowCount,
                           totalAmount / rowCount as real,
                           totalExpenses / rowCount as real,
                           totalNet / rowCount as real));
  }

  // ---------------------------------------------------------------------------
  // calculateMultipleDates
  // ---------------------------------------------------------------------------

  /** The summaries of those dates that have one, in the order of the dates. */
  function CollectTotals(dates: seq<string>, rows: seq<Row>, o: Options): (r: seq<Summary>)
    ensures |r| <= |dates|
    ensures forall k :: 0 <= k < |r| ==> r[k].date in dates
  {
    if dates == [] then []
    else
      var init := dates[..|dates| - 1];
      var prev := CollectTotals(init, rows, o);
      assert forall d :: d in init ==> d in dates;
      match TableTotals(dates[|dates| - 1], rows, o)
      case Some(s) => prev + [s]
      case None => prev
  }

  /** The positions in `dates` whose summaries `CollectTotals` keeps. */
  ghost function KeptIndices(dates: seq<string>, rows: seq<Row>, o: Options): seq<nat>
  {
    if dates == [] then []
    else
      var prev := KeptIndices(dates[..|dates| - 1], rows, o);
      if TableTotals(dates[|dates| - 1], rows, o).Some? then prev + [|dates| - 1] else prev
  }

  /** The i-th kept position holds a date whose summary is the i-th result. */
  lemma {:induction false} KeptAreResults(dates: seq<string>, rows: seq<Row>, o: Options)
    ensures var c, idx := CollectTotals(dates, rows, o), KeptIndices(dates, rows, o);
      |idx| == |c|
      && forall k :: 0 <= k < |idx| ==> idx[k] < |dates| && TableTotals(dates[idx[k]], rows, o) == Some(c[k])
  {
    if dates != [] {
      var init, last := dates[..|dates| - 1], dates[|dates| - 1];
      KeptAreResults(init, rows, o);
      var c0, idx0 := CollectTotals(init, rows, o), KeptIndices(init, rows, o);
      assert forall k :: 0 <= k < |idx0| ==> dates[idx0[k]] == init[idx0[k]];
      match TableTotals(last, rows, o)
      case Some(s) =>
        assert CollectTotals(dates, rows, o) == c0 + [s];
        assert KeptIndices(dates, rows, o) == idx0 + [|dates| - 1];
      case None =>
        assert CollectTotals(dates, rows, o) == c0;
        assert KeptIndices(dates, rows, o) == idx0;
    }
  }

  /** The kept positions increase, so the results keep the order of the dates. */
  lemma {:induction false} KeptIncrease(dates: seq<string>, rows: seq<Row>, o: Options)
    ensures var idx := KeptIndices(dates, rows, o);
      (forall k :: 0 <= k < |idx| ==> idx[k] < |dates|)
      && forall k, l :: 0 <= k < l < |idx| ==> idx[k] < idx[l]
  {
    if dates != [] {
      var n := |dates|;
      var init := dates[..n - 1];
      assert |init| == n - 1;
      var prev := KeptIndices(init, rows, o);
      KeptIncrease(init, rows, o);
      assert forall k :: 0 <= k < |KeptIndices(init, rows, o)| ==> KeptIndices(init, rows, o)[k] < |init|;
      assert forall k, l ::
               0 <= k < l < |KeptIndices(init, rows, o)| ==>
               KeptIndices(init, rows, o)[k] < KeptIndices(init, rows, o)[l];
      var idx := KeptIndices(dates, rows, o);
      if idx != prev {
        assert idx == prev + [n - 1];
        forall k, l | 0 <= k < l < |idx| ensures idx[k] < idx[l] {
          if l < |prev| { assert idx[k] == prev[k] && idx[l] == prev[l]; }
        }
      }
    }
  }

  /** Every date that has a summary is kept. */
  lemma {:induction false} KeptComplete(dates: seq<string>, rows: seq<Row>, o: Options)
    ensures var idx := KeptIndices(dates, rows, o);
      forall j :: 0 <= j < |dates| && TableTotals(dates[j], rows, o).Some? ==> j in idx
  {
    if dates != [] {
      var init := dates[..|dates| - 1];
      KeptComplete(init, rows, o);
      assert forall j :: 0 <= j < |init| ==> init[j] == dates[j];
    }
  }

  /** `CollectTotals` keeps the summary of every date that has one, drops every
      date that has none, and keeps the dates' order. */
  lemma CollectTotalsOrder(dates: seq<string>, rows: seq<Row>, o: Options)
    ensures var c, idx := CollectTotals(dates, rows, o), KeptIndices(dates, rows, o);
      && |idx| == |c|
      && (forall k :: 0 <= k < |idx| ==> idx[k] < |dates| && TableTotals(dates[idx[k]], rows, o) == Some(c[k]))
      && (forall k, l :: 0 <= k < l < |idx| ==> idx[k] < idx[l])
      && (forall j :: 0 <= j < |dates| && TableTotals(dates[j], rows, o).Some? ==> j in idx)
  {
    KeptAreResults(dates, rows, o);
    KeptIncrease(dates, rows, o);
    KeptComplete(dates, rows, o);
  }

  /** `calculateMultipleDates`: run the aggregator once per date, in order, and
      push every non-null result. */
  method CalculateMultipleDates(dates: seq<string>, rows: seq<Row>, o: Options)
    returns (results: seq<Summary>)
    ensures results == CollectTotals(dates, rows, o)
  {
    results := [];
    var i := 0;
    while i < |dates|
      invariant 0 <= i <= |dates|
      invariant results == CollectTotals(dates[..i], rows, o)
    {
      var result, _ := CalculateTableTotals(dates[i], rows, o);
      assert dates[..i + 1][..i] == dates[..i];
      if result.Some? {
        results := results + [result.value];
      }
      i := i + 1;
    }
    assert dates[..i] == dates;
  }

  // ---------------------------------------------------------------------------
  // analyzeTableStructure
  // ---------------------------------------------------------------------------

  /** `cells.map(cell => cell.textContent.trim())`. */
  function TrimAll(cells: seq<string>): (r: seq<string>)
    ensures |r| == |cells|
    ensures forall i :: 0 <= i < |cells| ==> r[i] == Trim(cells[i])
  {
    if cells == [] then [] else [Trim(cells[0])] + TrimAll(cells[1..])
  }

  /** `analyzeTableStructure`: `header` is the text of the `th` cells of the first
      header row and `firstBody` that of the `td` cells of the first body row, each
      None when the page has no such row. */
  function AnalyzeTableStructure(header: Option<seq<string>>, firstBody: Option<seq<string>>)
    : (r: StructureReport)
    ensures r.totalColumns == if header.Some? then |header.value| else 0
    ensures firstBody.None? ==> r.sampleData == []
    ensures firstBody.Some? ==> |r.sampleData| == |firstBody.value|
    ensures firstBody.Some? ==>
      forall i :: 0 <= i < |firstBody.value| ==> r.sampleData[i] == Trim(firstBody.value[i])
  {
    StructureReport(
      if header.Some? then |header.value| else 0,
      if firstBody.Some? then TrimAll(firstBody.value) else [])
  }

  /** Every sample is its cell's text stripped of surrounding whitespace and
      nothing more: it has no whitespace at either end and is its own trim. */
  lemma SampleDataTrimmed(header: Option<seq<string>>, firstBody: Option<seq<string>>, i: nat)
    requires firstBody.Some? && i < |firstBody.value|
    ensures var r := AnalyzeTableStructure(header, firstBody);
      var sample := r.sampleData[i];
      Unpadded(sample) && Trim(sample) == sample
      && exists w1, w2 :: PaddedWith(firstBody.value[i], w1, sample, w2)
  {
    TrimSpec(firstBody.value[i]);
    var sample := AnalyzeTableStructure(header, firstBody).sampleData[i];
    TrimUnpadded(sample);
  }
}
