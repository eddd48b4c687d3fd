/**
 * The outcome of the two exports, as a function of the dialog inputs and
 * the data file, and the export folder the written files land in.
 */
module Export {
  import opened Wrappers
  import opened IntText
  import opened Dates
  import opened Records
  import opened Selection

  /** Appended to every export file name ("expense list", CSV). */
  const ExportSuffix: string := "_経費一覧.csv"

  /** "{year}-{month}_経費一覧.csv", built from the texts as typed. */
  function MonthlyExportName(year: string, month: string): string {
    year + "-" + month + ExportSuffix
  }

  /** "{pj_name}_経費一覧.csv". */
  function ProjectExportName(name: string): string {
    name + ExportSuffix
  }

  /** Why an export stopped without a result: the exceptions the exporter does not catch. */
  datatype Failure = TableMissing | DateUnparseable | YearNotInteger | MonthNotInteger

  datatype ExportResult =
    | Cancelled                                   // an input was left empty: nothing read, nothing written
    | Aborted(failure: Failure)                   // an exception ended the export: nothing written
    | NoData                                      // no row was selected: "no data" reported, nothing written
    | Written(name: string, rows: seq<Record>)    // the selected rows were written to the named file

  /** The empty check shared by both exports. */
  function Conclude(name: string, kept: seq<Record>): ExportResult {
    if kept == [] then NoData else Written(name, kept)
  }

  /**
   * The month export: the empty-input check, the read, the eager parse of
   * the whole date column, int(year), int(month), the filter, the empty check.
   */
  function MonthlyExport(year: string, month: string, file: Option<seq<Record>>): (res: ExportResult)
    ensures res == Cancelled <==> year == "" || month == ""
    ensures res.Written? ==> res.name == MonthlyExportName(year, month) && res.rows != []
  {
    if year == "" || month == "" then Cancelled
    else match file
      case None => Aborted(TableMissing)
      case Some(rows) =>
        if !AllDatesParse(rows) then Aborted(DateUnparseable)
        else match ParseInt(year)
          case None => Aborted(YearNotInteger)
          case Some(y) =>
            match ParseInt(month)
            case None => Aborted(MonthNotInteger)
            case Some(m) => Conclude(MonthlyExportName(year, month), FilterByMonth(rows, y, m).value)
  }

  /** The project export: the empty-input check, the read, the exact-match filter, the empty check. */
  function ProjectExport(name: string, file: Option<seq<Record>>): (res: ExportResult)
    ensures res == Cancelled <==> name == ""
    ensures res.Written? ==> res.name == ProjectExportName(name) && res.rows != []
  {
    if name == "" then Cancelled
    else match file
      case None => Aborted(TableMissing)
      case Some(rows) => Conclude(ProjectExportName(name), FilterByProject(rows, name))
  }

  /**
   * Once both inputs are integers and every date parses, the month export
   * concludes on the rows of that month, in table order.
   */
  lemma MonthlyExportSelects(year: string, month: string, rows: seq<Record>, y: int, m: int)
    requires year != "" && month != "" && AllDatesParse(rows)
    requires ParseInt(year) == Some(y) && ParseInt(month) == Some(m)
    ensures MonthlyExport(year, month, Some(rows)) == Conclude(MonthlyExportName(year, month), Select(rows, InMonth(y, m)))
  {
  }

  /**
   * The month export writes a file exactly when both inputs are given, the
   * table exists, every date parses, both inputs are integers and some row
   * falls in that month; the file is named from the inputs as typed and
   * holds the rows of that month in table order.
   */
  lemma MonthlyExportWritten(year: string, month: string, file: Option<seq<Record>>)
    ensures var res := MonthlyExport(year, month, file);
      res.Written? <==>
        year != "" && month != "" && file.Some? && AllDatesParse(file.value)
        && ParseInt(year).Some? && ParseInt(month).Some?
        && exists i :: 0 <= i < |file.value| && Matches(InMonth(ParseInt(year).value, ParseInt(month).value), file.value[i])
    ensures var res := MonthlyExport(year, month, file);
      res.Written? ==>
        res.name == MonthlyExportName(year, month)
        && res.rows == Select(file.value, InMonth(ParseInt(year).value, ParseInt(month).value))
  {
    if year != "" && month != "" && file.Some? && AllDatesParse(file.value) && ParseInt(year).Some? && ParseInt(month).Some? {
      SelectEmpty(file.value, InMonth(ParseInt(year).value, ParseInt(month).value));
    }
  }

  /** "No data" is reported exactly when the inputs are usable and no row falls in that month. */
  lemma MonthlyExportNoData(year: string, month: string, file: Option<seq<Record>>)
    ensures MonthlyExport(year, month, file) == NoData <==>
      year != "" && month != "" && file.Some? && AllDatesParse(file.value)
      && ParseInt(year).Some? && ParseInt(month).Some?
      && forall i :: 0 <= i < |file.value| ==> !Matches(InMonth(ParseInt(year).value, ParseInt(month).value), file.value[i])
  {
    if year != "" && month != "" && file.Some? && AllDatesParse(file.value) && ParseInt(year).Some? && ParseInt(month).Some? {
      SelectEmpty(file.value, InMonth(ParseInt(year).value, ParseInt(month).value));
    }
  }

  /** One unparseable date anywhere in the table aborts the month export, whatever month is asked for. */
  lemma OneBadDateAborts(year: string, month: string, rows: seq<Record>, i: nat)
    requires year != "" && month != ""
    requires i < |rows| && ParseDate(rows[i].usedDate).None?
    ensures MonthlyExport(year, month, Some(rows)) == Aborted(DateUnparseable)
  {
  }

  /**
   * The project export writes a file exactly when a name is given, the table
   * exists and some row has exactly that project; the file holds exactly the
   * rows of that project, in table order.
   */
  lemma ProjectExportWritten(name: string, file: Option<seq<Record>>)
    ensures var res := ProjectExport(name, file);
      res.Written? <==> name != "" && file.Some? && exists i :: 0 <= i < |file.value| && file.value[i].project == name
    ensures var res := ProjectExport(name, file);
      res.Written? ==> res.name == ProjectExportName(name) && res.rows == Select(file.value, ProjectIs(name))
    ensures ProjectExport(name, file) == NoData <==>
      name != "" && file.Some? && forall i :: 0 <= i < |file.value| ==> file.value[i].project != name
  {
    if name != "" && file.Some? {
      SelectEmpty(file.value, ProjectIs(name));
    }
  }

  /**
   * A record registered after an export only ever adds itself, at the end,
   * to what a later project export of its own project selects.
   */
  lemma ProjectFilterAfterAppend(rows: seq<Record>, r: Record, name: string)
    ensures FilterByProject(rows + [r], name) == FilterByProject(rows, name) + (if r.project == name then [r] else [])
  {
    SelectConcat(rows, [r], ProjectIs(name));
    assert [r][1..] == [];
  }

  /** The same for the month export, given that the new record's date parses. */
  lemma MonthFilterAfterAppend(rows: seq<Record>, r: Record, year: int, month: int)
    requires AllDatesParse(rows) && ParseDate(r.usedDate).Some?
    ensures FilterByMonth(rows + [r], year, month).Some?
    ensures FilterByMonth(rows + [r], year, month).value ==
      FilterByMonth(rows, year, month).value + (if Matches(InMonth(year, month), r) then [r] else [])
  {
    assert AllDatesParse(rows + [r]) by {
      assert forall i :: 0 <= i < |rows| ==> (rows + [r])[i] == rows[i];
    }
    SelectConcat(rows, [r], InMonth(year, month));
    assert [r][1..] == [];
  }

  /** Distinct project names are exported to distinct files. */
  lemma ProjectExportNameInjective(a: string, b: string)
    requires ProjectExportName(a) == ProjectExportName(b)
    ensures a == b
  {
    assert a == ProjectExportName(a)[..|a|];
  }

  /** For one year text, distinct month texts are exported to distinct files. */
  lemma MonthlyExportNameInjective(year: string, a: string, b: string)
    requires MonthlyExportName(year, a) == MonthlyExportName(year, b)
    ensures a == b
  {
    var prefix := year + "-";
    assert MonthlyExportName(year, a) == prefix + (a + ExportSuffix);
    assert MonthlyExportName(year, b) == prefix + (b + ExportSuffix);
    assert a + ExportSuffix == MonthlyExportName(year, a)[|prefix|..];
    assert a == (a + ExportSuffix)[..|a|];
    assert b == (b + ExportSuffix)[..|b|];
  }

  /**
   * Both exports write into one folder under one naming scheme: the project
   * export of a project called "Y-M" writes the file the month export of
   * year Y and month M writes.
   */
  lemma ExportNamesShareFolder(year: string, month: string)
    ensures ProjectExportName(year + "-" + month) == MonthlyExportName(year, month)
  {
  }

  /** The folder the exports are written to: file name to the records the file holds. */
  class ExportFolder {
    var files: map<string, seq<Record>>

    constructor (existing: map<string, seq<Record>>)
      ensures files == existing
    {
      files := existing;
    }

    /** to_csv into the folder: a file of that name is created or overwritten; no other file changes. */
    method Write(name: string, rows: seq<Record>)
      modifies this
      ensures files == old(files)[name := rows]
    {
      files := files[name := rows];
    }
  }
}
