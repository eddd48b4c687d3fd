/** Concrete tables and what the exports make of them. */
module Scenarios {
  import opened Wrappers
  import opened IntText
  import opened Dates
  import opened Records
  import opened Selection
  import opened Export

  function Expense(project: string, usedDate: string, amount: int): Record {
    Record(project, usedDate, "山田", "タクシー", "交通費", amount)
  }

  lemma YearText(t: string)
    requires t == "2025"
    ensures ParseInt(t) == Some(2025)
  {
    NatToTextGroups(2025);
    assert NatToText(2025) == t;
    DigitsUnspaced(t, false);
    UnsignedValue(t);
  }

  lemma MonthText(t: string)
    requires t == "09"
    ensures ParseInt(t) == Some(9)
  {
    DigitsUnspaced(t, false);
    assert IsDigitGroups(t);
    UnsignedValue(t);
    var z := t[..1];
    assert z[..0] == [] && z[0] == '0';
    assert DigitsValue(z) == 0;
    assert DigitsValue(t) == 10 * DigitsValue(z) + DigitValue(t[1]);
  }

  lemma SelectThree(a: Record, b: Record, d: Record, c: Criterion)
    ensures Select([a, b, d], c) ==
      (if Matches(c, a) then [a] else []) + (if Matches(c, b) then [b] else []) + (if Matches(c, d) then [d] else [])
  {
    assert [a, b, d] == [a] + [b] + [d];
    SelectConcat([a] + [b], [d], c);
    SelectConcat([a], [b], c);
    assert [a][1..] == [] && [b][1..] == [] && [d][1..] == [];
  }

  /** Three rows of which the first two fall in the asked month: those two are written. */
  lemma FirstTwoOfThree(a: Record, b: Record, d: Record, year: string, month: string, y: int, m: int)
    requires year != "" && month != "" && ParseInt(year) == Some(y) && ParseInt(month) == Some(m)
    requires AllDatesParse([a, b, d])
    requires Matches(InMonth(y, m), a) && Matches(InMonth(y, m), b) && !Matches(InMonth(y, m), d)
    ensures MonthlyExport(year, month, Some([a, b, d])) == Written(MonthlyExportName(year, month), [a, b])
  {
    SelectThree(a, b, d, InMonth(y, m));
    MonthlyExportSelects(year, month, [a, b, d], y, m);
  }

  /** A row whose used date is the "%Y-%m-%d" text of a date falls in the month of that date. */
  lemma FormattedDateMatches(r: Record, date: Date, y: int, m: int)
    requires ValidDate(date) && r.usedDate == FormatDate(date)
    ensures ParseDate(r.usedDate) == Some(date)
    ensures Matches(InMonth(y, m), r) <==> date.year == y && date.month == m
  {
    FormatThenParse(date);
  }

  lemma AllThreeParse(a: Record, b: Record, d: Record)
    requires ParseDate(a.usedDate).Some? && ParseDate(b.usedDate).Some? && ParseDate(d.usedDate).Some?
    ensures AllDatesParse([a, b, d])
  {
    var rows := [a, b, d];
    assert rows[0] == a && rows[1] == b && rows[2] == d;
  }

  /**
   * Rows used on 2025-09-01, 2025-09-30 and 2025-10-01 (the "%Y-%m-%d" texts
   * of those dates): the export for year "2025" and month "09" writes the
   * first two rows to "2025-09_経費一覧.csv".
   */
  lemma SeptemberExample(a: Record, b: Record, d: Record, year: string, month: string)
    requires a.usedDate == FormatDate(Date(2025, 9, 1))
    requires b.usedDate == FormatDate(Date(2025, 9, 30))
    requires d.usedDate == FormatDate(Date(2025, 10, 1))
    requires year == "2025" && month == "09"
    ensures MonthlyExport(year, month, Some([a, b, d])) == Written(MonthlyExportName(year, month), [a, b])
  {
    FormattedDateMatches(a, Date(2025, 9, 1), 2025, 9);
    FormattedDateMatches(b, Date(2025, 9, 30), 2025, 9);
    FormattedDateMatches(d, Date(2025, 10, 1), 2025, 9);
    AllThreeParse(a, b, d);
    YearText(year);
    MonthText(month);
    FirstTwoOfThree(a, b, d, year, month, 2025, 9);
  }

  /** Rows of PJ-A and PJ-B: the export for "PJ-A" writes just the PJ-A rows, in order; "PJ-C" finds nothing. */
  lemma ProjectExample(rows: seq<Record>)
    requires rows == [Expense("PJ-A", "2025-09-01", 1200), Expense("PJ-B", "2025-09-02", 300), Expense("PJ-A", "2025-09-03", 800)]
    ensures ProjectExport("PJ-A", Some(rows)) == Written("PJ-A_経費一覧.csv", [rows[0], rows[2]])
    ensures ProjectExport("PJ-C", Some(rows)) == NoData
  {
    SelectThree(rows[0], rows[1], rows[2], ProjectIs("PJ-A"));
    SelectThree(rows[0], rows[1], rows[2], ProjectIs("PJ-C"));
  }
}
