/** What the model gives for small tables of the shape the calculator's default
    options expect: what one or two rows add up to and the object returned for
    them, and how the guards treat a mistyped date, a row of another date or a
    doubled currency sign. */
module Scenarios {

  import opened Wrappers
  import opened Strings
  import opened Numbers
  import opened TotalCalc

  /** A row of 13 cells, the fewest the default columns allow: the amount in
      column 6, the expenses in columns 10 and 11, the date in column 12. */
  function SampleRow(date: string, amount: string, expense1: string, expense2: string): Row
  {
    ["", "", "", "", "", "", amount, "", "", "", expense1, expense2, date]
  }

  /** The trimmed cell of a plain numeral parses to the number it spells. */
  lemma NumeralCell(ds: string)
    requires AllDigits(ds) && ds != []
    ensures ParseOrZero(Trim(ds)) == DigitsValue(ds) as real
  {
    assert !IsWhitespace(ds[0]) && !IsWhitespace(ds[|ds| - 1]);
    TrimUnpadded(ds);
    ParseNumeral(ds);
  }

  /** A cell of "£" and text that does not end in whitespace yields that text once
      it is trimmed and its currency sign is cut out. */
  lemma PoundCellText(rest: string)
    requires rest != [] && !IsWhitespace(rest[|rest| - 1])
    ensures RemoveFirst(Trim("£" + rest), "£") == rest
  {
    var cell := "£" + rest;
    assert !IsWhitespace(cell[0]) && cell[|cell| - 1] == rest[|rest| - 1];
    TrimUnpadded(cell);
    RemoveLeading("£", rest);
  }

  /** A pound amount cell parses to the pounds without the sign. */
  lemma PoundCell(ds: string)
    requires AllDigits(ds) && ds != []
    ensures ParseOrZero(RemoveFirst(Trim("£" + ds), "£")) == DigitsValue(ds) as real
  {
    assert !IsWhitespace(ds[|ds| - 1]);
    PoundCellText(ds);
    ParseNumeral(ds);
  }

  /** A pound amount with pence parses to pounds and pence. */
  lemma PoundPenceCell(ds: string, fs: string)
    requires AllDigits(ds) && ds != [] && AllDigits(fs)
    ensures ParseOrZero(RemoveFirst(Trim("£" + ds + "." + fs), "£"))
         == DigitsValue(ds) as real + FractionValue(fs)
  {
    var rest := ds + "." + fs;
    assert "£" + ds + "." + fs == "£" + rest;
    assert |fs| > 0 ==> rest[|rest| - 1] == fs[|fs| - 1];
    PoundCellText(rest);
    ParseDecimal(ds, fs, []);
    assert rest + [] == rest;
  }

  /** What the default options read from a sample row. */
  lemma SampleRowValues(date: string, amount: string, expense1: string, expense2: string)
    ensures var row := SampleRow(date, amount, expense1, expense2);
      HasColumns(row, DefaultOptions)
      && Amount(row, DefaultOptions) == ParseOrZero(RemoveFirst(Trim(amount), "£"))
      && RowExpenses(row, DefaultOptions) == ParseOrZero(Trim(expense1)) + ParseOrZero(Trim(expense2))
  {
    var row := SampleRow(date, amount, expense1, expense2);
    assert MaxColumn(DefaultOptions) == 12;
    assert row[6] == amount && row[10] == expense1 && row[11] == expense2;
  }

  /** The date cell of a sample row that holds exactly `date` matches `date`. */
  lemma SampleRowMatches(date: string, amount: string, expense1: string, expense2: string)
    requires IsDateFormat(date)
    ensures Matches(SampleRow(date, amount, expense1, expense2), date, DefaultOptions)
  {
    PaddedDateMatches(SampleRow(date, amount, expense1, expense2), date, [], [], DefaultOptions);
    assert [] + date + [] == date;
  }

  /** A sample row whose date is not the target is not counted, the bounds guard
      being passed: exact string equality decides. */
  lemma OtherDateIgnored(date: string, target: string, amount: string, expense1: string, expense2: string)
    requires IsDateFormat(date) && date != target
    ensures !Matches(SampleRow(date, amount, expense1, expense2), target, DefaultOptions)
  {
    SampleRowMatches(date, amount, expense1, expense2);
  }

  /** The loop's totals after a table of one matching row: that row's amount, its
      expenses and the difference, counted once. */
  lemma OneMatchingRow(date: string, row: Row, o: Options)
    requires Matches(row, date, o)
    ensures var a, e := Amount(row, o), RowExpenses(row, o);
      Accumulate([row], date, o) == Totals(a, e, a - e, 1)
  {
    assert [row][..0] == [];
  }

  /** The loop's totals after a table of two matching rows: the two rows' values
      added up, and a count of two. */
  lemma TwoMatchingRows(date: string, r1: Row, r2: Row, o: Options)
    requires Matches(r1, date, o) && Matches(r2, date, o)
    ensures var a1, e1 := Amount(r1, o), RowExpenses(r1, o);
      var a2, e2 := Amount(r2, o), RowExpenses(r2, o);
      Accumulate([r1, r2], date, o) == Totals(a1 + a2, e1 + e2, (a1 - e1) + (a2 - e2), 2)
  {
    assert [r1, r2][..1] == [r1];
    OneMatchingRow(date, r1, o);
  }

  /** With one counted row each average equals its total. */
  lemma OneRowSummary(targetDate: string, t: Totals)
    requires t.count == 1
    ensures Summarize(targetDate, t)
         == Some(Summary(targetDate, t.amount, t.expenses, t.net, 1, t.amount, t.expenses, t.net))
  {
  }

  /** With two counted rows each average is half its total. */
  lemma TwoRowSummary(targetDate: string, t: Totals)
    requires t.count == 2
    ensures Summarize(targetDate, t)
         == Some(Summary(targetDate, t.amount, t.expenses, t.net, 2,
                         t.amount / 2.0, t.expenses / 2.0, t.net / 2.0))
  {
  }

  /** A well-formed date whose rows add up to 150, 75 and 75 over one row gives
      that summary, each average equal to its total. */
  lemma SingleRowSummary(date: string, rows: seq<Row>, o: Options)
    requires IsDateFormat(date) && Accumulate(rows, date, o) == Totals(150.0, 75.0, 75.0, 1)
    ensures TableTotals(date, rows, o)
         == Some(Summary(date, 150.0, 75.0, 75.0, 1, 150.0, 75.0, 75.0))
  {
    OneRowSummary(date, Accumulate(rows, date, o));
  }

  /** A well-formed date whose rows add up to 300, 30 and 270 over two rows gives
      that summary with averages 150, 15 and 135. */
  lemma TwoRowsSummary(date: string, rows: seq<Row>, o: Options)
    requires IsDateFormat(date) && Accumulate(rows, date, o) == Totals(300.0, 30.0, 270.0, 2)
    ensures TableTotals(date, rows, o)
         == Some(Summary(date, 300.0, 30.0, 270.0, 2, 150.0, 15.0, 135.0))
  {
    TwoRowSummary(date, Accumulate(rows, date, o));
  }

  /** "£150.00" is an amount of 150. */
  lemma PenceAmountExample(amount: string)
    requires amount == "£150.00"
    ensures ParseOrZero(RemoveFirst(Trim(amount), "£")) == 150.0
  {
    var pounds, pence := "150", "00";
    assert amount == "£" + pounds + "." + pence;
    PoundPenceCell(pounds, pence);
    assert DigitsValue(pounds) == 150 by { assert pounds[..2] == "15"; assert pounds[..2][..1] == "1"; }
    assert FractionValue(pence) == 0.0 by { assert pence[1..] == "0"; assert pence[1..][1..] == ""; }
  }

  /** Expense cells "50" and "25" add up to 75. */
  lemma ExpensesExample(expense1: string, expense2: string)
    requires expense1 == "50" && expense2 == "25"
    ensures ParseOrZero(Trim(expense1)) + ParseOrZero(Trim(expense2)) == 75.0
  {
    NumeralCell(expense1);
    NumeralCell(expense2);
    assert DigitsValue(expense1) == 50 by { assert expense1[..1] == "5"; }
    assert DigitsValue(expense2) == 25 by { assert expense2[..1] == "2"; }
  }

  /** "£100" is an amount of 100. */
  lemma HundredPoundsExample(amount: string)
    requires amount == "£100"
    ensures ParseOrZero(RemoveFirst(Trim(amount), "£")) == 100.0
  {
    var pounds := "100";
    assert amount == "£" + pounds;
    PoundCell(pounds);
    assert DigitsValue(pounds) == 100 by { assert pounds[..2] == "10"; assert pounds[..2][..1] == "1"; }
  }

  /** "£200" is an amount of 200. */
  lemma TwoHundredPoundsExample(amount: string)
    requires amount == "£200"
    ensures ParseOrZero(RemoveFirst(Trim(amount), "£")) == 200.0
  {
    var pounds := "200";
    assert amount == "£" + pounds;
    PoundCell(pounds);
    assert DigitsValue(pounds) == 200 by { assert pounds[..2] == "20"; assert pounds[..2][..1] == "2"; }
  }

  /** Expense cells "10" and "0" add up to 10, "0" and "20" to 20. */
  lemma TwoRowExpensesExample(zero: string, ten: string, twenty: string)
    requires zero == "0" && ten == "10" && twenty == "20"
    ensures ParseOrZero(Trim(ten)) + ParseOrZero(Trim(zero)) == 10.0
    ensures ParseOrZero(Trim(zero)) + ParseOrZero(Trim(twenty)) == 20.0
  {
    NumeralCell(zero);
    NumeralCell(ten);
    NumeralCell(twenty);
    assert DigitsValue(ten) == 10 by { assert ten[..1] == "1"; }
    assert DigitsValue(twenty) == 20 by { assert twenty[..1] == "2"; }
  }

  /** One row on 01/01/2025 with "£150.00" and expenses "50" and "25": the loop
      ends with totals 150, 75 and 75 over one row. */
  lemma SingleRowAccumulates(date: string, amount: string, expense1: string, expense2: string)
    requires date == "01/01/2025" && amount == "£150.00" && expense1 == "50" && expense2 == "25"
    ensures Accumulate([SampleRow(date, amount, expense1, expense2)], date, DefaultOptions)
         == Totals(150.0, 75.0, 75.0, 1)
  {
    SampleRowMatches(date, amount, expense1, expense2);
    SampleRowValues(date, amount, expense1, expense2);
    PenceAmountExample(amount);
    ExpensesExample(expense1, expense2);
    OneMatchingRow(date, SampleRow(date, amount, expense1, expense2), DefaultOptions);
  }

  /** Two rows on 01/01/2025, "£100" with expenses "10" and "0" and "£200" with "0"
      and "20": the loop ends with totals 300, 30 and 270 over two rows. */
  lemma TwoRowsAccumulate(date: string, amount1: string, amount2: string,
                          zero: string, ten: string, twenty: string)
    requires date == "01/01/2025" && amount1 == "£100" && amount2 == "£200"
    requires zero == "0" && ten == "10" && twenty == "20"
    ensures Accumulate([SampleRow(date, amount1, ten, zero), SampleRow(date, amount2, zero, twenty)],
                       date, DefaultOptions)
         == Totals(300.0, 30.0, 270.0, 2)
  {
    SampleRowMatches(date, amount1, ten, zero);
    SampleRowMatches(date, amount2, zero, twenty);
    SampleRowValues(date, amount1, ten, zero);
    SampleRowValues(date, amount2, zero, twenty);
    HundredPoundsExample(amount1);
    TwoHundredPoundsExample(amount2);
    TwoRowExpensesExample(zero, ten, twenty);
    TwoMatchingRows(date, SampleRow(date, amount1, ten, zero), SampleRow(date, amount2, zero, twenty),
                    DefaultOptions);
  }

  /** The date of the worked examples is well formed. */
  lemma WorkedDate(date: string)
    requires date == "01/01/2025"
    ensures IsDateFormat(date)
  {
  }

  /** The first worked example in full: the one row gives a summary of 150, 75
      and 75 over one row, each average equal to its total. */
  lemma SingleRowExample(date: string, amount: string, expense1: string, expense2: string, rows: seq<Row>)
    requires date == "01/01/2025" && amount == "£150.00" && expense1 == "50" && expense2 == "25"
    requires rows == [SampleRow(date, amount, expense1, expense2)]
    ensures TableTotals(date, rows, DefaultOptions)
         == Some(Summary(date, 150.0, 75.0, 75.0, 1, 150.0, 75.0, 75.0))
  {
    SingleRowAccumulates(date, amount, expense1, expense2);
    WorkedDate(date);
    SingleRowSummary(date, rows, DefaultOptions);
  }

  /** The second worked example in full: the two rows give a summary of 300, 30
      and 270 over two rows, with averages 150, 15 and 135. */
  lemma TwoRowsExample(date: string, amount1: string, amount2: string,
                       zero: string, ten: string, twenty: string, rows: seq<Row>)
    requires date == "01/01/2025" && amount1 == "£100" && amount2 == "£200"
    requires zero == "0" && ten == "10" && twenty == "20"
    requires rows == [SampleRow(date, amount1, ten, zero), SampleRow(date, amount2, zero, twenty)]
    ensures TableTotals(date, rows, DefaultOptions)
         == Some(Summary(date, 300.0, 30.0, 270.0, 2, 150.0, 15.0, 135.0))
  {
    TwoRowsAccumulate(date, amount1, amount2, zero, ten, twenty);
    WorkedDate(date);
    TwoRowsSummary(date, rows, DefaultOptions);
  }

  /** A table whose only row has another date gives null. */
  lemma OtherDatesOnlyIsNull(date: string, target: string, amount: string, expense1: string, expense2: string)
    requires IsDateFormat(date) && date != target
    ensures TableTotals(target, [SampleRow(date, amount, expense1, expense2)], DefaultOptions) == None
  {
    var row := SampleRow(date, amount, expense1, expense2);
    OtherDateIgnored(date, target, amount, expense1, expense2);
    assert [row][..0] == [];
    assert Accumulate([row], target, DefaultOptions) == Totals(0.0, 0.0, 0.0, 0);
  }

  /** A date written without leading zeros is refused before any row is read,
      even though a calendar would read it as the same day. */
  lemma ShortDateRefused(rows: seq<Row>, o: Options)
    ensures TableTotals("1/1/2025", rows, o) == None
  {
  }

  /** With a doubled currency sign only the first is cut out, the rest does not
      parse, and the amount falls back to 0. */
  lemma DoubledSymbolIsZero()
    ensures ParseOrZero(RemoveFirst(Trim("££5"), "£")) == 0.0
  {
    var cell := "££5";
    assert !IsWhitespace(cell[0]) && !IsWhitespace(cell[|cell| - 1]);
    TrimUnpadded(cell);
    assert cell == "£" + "£5";
    RemoveLeading("£", "£5");
    ParseNoDigits("£5");
  }

  /** Of two dates, the first with a summary and the second without, only the
      first one's summary is collected. */
  lemma MultipleDatesDropsEmpty(d1: string, d2: string, rows: seq<Row>, o: Options, s: Summary)
    requires TableTotals(d1, rows, o) == Some(s) && TableTotals(d2, rows, o) == None
    ensures CollectTotals([d1, d2], rows, o) == [s]
  {
    var dates := [d1, d2];
    assert dates[..1] == [d1];
    assert dates[..1][..0] == [];
  }
}
