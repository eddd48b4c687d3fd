/**
 * The two export filters. Each is written the way the exporter computes it
 * (a column, a boolean mask over the rows, and the rows the mask keeps) and
 * proved equal to Select, the order-preserving selection of the rows that
 * satisfy a criterion.
 */
module Selection {
  import opened Wrappers
  import opened Dates
  import opened Records

  /** What an export keeps: rows of one project, or rows used in one calendar month. */
  datatype Criterion = ProjectIs(name: string) | InMonth(year: int, month: int)

  predicate Matches(c: Criterion, r: Record) {
    match c
    case ProjectIs(name) => r.project == name
    case InMonth(year, month) =>
      match ParseDate(r.usedDate)
      case Some(d) => d.year == year && d.month == month
      case None => false
  }

  /** The rows satisfying c, in their original order. */
  function Select(rows: seq<Record>, c: Criterion): (kept: seq<Record>)
    ensures |kept| <= |rows|
  {
    if rows == [] then [] else (if Matches(c, rows[0]) then [rows[0]] else []) + Select(rows[1..], c)
  }

  /**
   * Select keeps exactly the matching rows: each record occurs in the result
   * as often as in rows when it matches, and not at all when it does not.
   */
  lemma {:induction false} SelectCounts(rows: seq<Record>, c: Criterion, x: Record)
    ensures multiset(Select(rows, c))[x] == if Matches(c, x) then multiset(rows)[x] else 0
  {
    if rows != [] {
      var head := if Matches(c, rows[0]) then [rows[0]] else [];
      SelectCounts(rows[1..], c, x);
      assert rows == [rows[0]] + rows[1..];
      assert multiset(rows) == multiset([rows[0]]) + multiset(rows[1..]);
      assert multiset(Select(rows, c)) == multiset(head) + multiset(Select(rows[1..], c));
      assert multiset(head)[x] == if Matches(c, x) then multiset([rows[0]])[x] else 0;
    }
  }

  /** Selection preserves order: selecting from a concatenation concatenates the selections. */
  lemma {:induction false} SelectConcat(a: seq<Record>, b: seq<Record>, c: Criterion)
    ensures Select(a + b, c) == Select(a, c) + Select(b, c)
  {
    if a == [] {
      assert a + b == b;
    } else {
      var head := if Matches(c, a[0]) then [a[0]] else [];
      assert (a + b)[0] == a[0] && (a + b)[1..] == a[1..] + b;
      SelectConcat(a[1..], b, c);
      calc {
        Select(a + b, c);
        head + Select(a[1..] + b, c);
        head + (Select(a[1..], c) + Select(b, c));
        (head + Select(a[1..], c)) + Select(b, c);
        Select(a, c) + Select(b, c);
      }
    }
  }

  /** Every selected row matches. */
  lemma {:induction false} SelectMatches(rows: seq<Record>, c: Criterion)
    ensures forall i :: 0 <= i < |Select(rows, c)| ==> Matches(c, Select(rows, c)[i])
  {
    if rows != [] {
      SelectMatches(rows[1..], c);
    }
  }

  /** Nothing is selected exactly when no row matches. */
  lemma {:induction false} SelectEmpty(rows: seq<Record>, c: Criterion)
    ensures Select(rows, c) == [] <==> forall i :: 0 <= i < |rows| ==> !Matches(c, rows[i])
  {
    if rows != [] {
      SelectEmpty(rows[1..], c);
      assert forall i :: 1 <= i < |rows| ==> rows[i] == rows[1..][i - 1];
    }
  }

  /** df[mask]: the rows at the positions where the mask is true, in order. */
  function ApplyMask(rows: seq<Record>, mask: seq<bool>): seq<Record>
    requires |mask| == |rows|
  {
    if rows == [] then [] else (if mask[0] then [rows[0]] else []) + ApplyMask(rows[1..], mask[1..])
  }

  lemma {:induction false} MaskIsSelect(rows: seq<Record>, mask: seq<bool>, c: Criterion)
    requires |mask| == |rows|
    requires forall i :: 0 <= i < |rows| ==> mask[i] == Matches(c, rows[i])
    ensures ApplyMask(rows, mask) == Select(rows, c)
  {
    if rows != [] {
      MaskIsSelect(rows[1..], mask[1..], c);
    }
  }

  /** df['プロジェクト'] == name: exact, case-sensitive comparison per row. */
  function ProjectMask(rows: seq<Record>, name: string): (mask: seq<bool>)
    ensures |mask| == |rows|
    ensures forall i :: 0 <= i < |rows| ==> mask[i] == (rows[i].project == name)
  {
    seq(|rows|, i requires 0 <= i < |rows| => rows[i].project == name)
  }

  /** The project filter keeps exactly the rows whose project equals name, in order. */
  function FilterByProject(rows: seq<Record>, name: string): (kept: seq<Record>)
    ensures kept == Select(rows, ProjectIs(name))
    ensures forall i :: 0 <= i < |kept| ==> kept[i].project == name
  {
    MaskIsSelect(rows, ProjectMask(rows, name), ProjectIs(name));
    SelectMatches(rows, ProjectIs(name));
    ApplyMask(rows, ProjectMask(rows, name))
  }

  /**
   * pd.to_datetime on the used-date column: every cell is parsed, and one
   * cell that does not parse makes the whole conversion fail.
   */
  function ToDatetime(cells: seq<string>): (r: Option<seq<Date>>)
    ensures r.Some? ==> |r.value| == |cells| && forall i :: 0 <= i < |cells| ==> ParseDate(cells[i]) == Some(r.value[i])
    ensures r.None? ==> exists i :: 0 <= i < |cells| && ParseDate(cells[i]).None?
  {
    if cells == [] then Some([])
    else match (ParseDate(cells[0]), ToDatetime(cells[1..]))
      case (Some(d), Some(rest)) => Some([d] + rest)
      case (None, _) => None
      case (_, None) => None
  }

  function DateColumn(rows: seq<Record>): (cells: seq<string>)
    ensures |cells| == |rows| && forall i :: 0 <= i < |rows| ==> cells[i] == rows[i].usedDate
  {
    seq(|rows|, i requires 0 <= i < |rows| => rows[i].usedDate)
  }

  /** (dates.year == year) & (dates.month == month). */
  function MonthMask(dates: seq<Date>, year: int, month: int): (mask: seq<bool>)
    ensures |mask| == |dates|
    ensures forall i :: 0 <= i < |dates| ==> mask[i] == (dates[i].year == year && dates[i].month == month)
  {
    seq(|dates|, i requires 0 <= i < |dates| => dates[i].year == year && dates[i].month == month)
  }

  predicate AllDatesParse(rows: seq<Record>) {
    forall i :: 0 <= i < |rows| ==> ParseDate(rows[i].usedDate).Some?
  }

  /**
   * The month filter: None when any row's used date does not parse, however
   * unrelated that row is; otherwise the rows used in that year and month,
   * in order.
   */
  function FilterByMonth(rows: seq<Record>, year: int, month: int): (r: Option<seq<Record>>)
    ensures r.None? <==> !AllDatesParse(rows)
    ensures r.Some? ==> r.value == Select(rows, InMonth(year, month))
  {
    match ToDatetime(DateColumn(rows))
    case None => None
    case Some(dates) =>
      var mask := MonthMask(dates, year, month);
      MaskIsSelect(rows, mask, InMonth(year, month));
      Some(ApplyMask(rows, mask))
  }
}
