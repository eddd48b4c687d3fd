/**
 * The expense record and the CSV table that stores the records: a header
 * row with the six column names, then one row of six cells per record in
 * insertion order.
 */
module Records {
  import opened Wrappers
  import opened IntText

  /** One expense, its fields in the table's fixed column order. */
  datatype Record = Record(
    project: string,
    usedDate: string,
    submitter: string,
    description: string,
    category: string,
    amount: int)

  /** The header: project, used date, submitter, description, category, amount. */
  const Columns: seq<string> := ["プロジェクト", "使用日", "使用者", "内容", "種別", "金額"]

  /** The cells of a record's table row; the amount is written as str(amount). */
  function Cells(r: Record): (cells: seq<string>)
    ensures |cells| == |Columns|
    ensures cells[0] == r.project && cells[1] == r.usedDate && cells[2] == r.submitter
    ensures cells[3] == r.description && cells[4] == r.category
  {
    [r.project, r.usedDate, r.submitter, r.description, r.category, IntToText(r.amount)]
  }

  /**
   * Reads one table row back: six cells, the last an integer. This is not
   * the pandas reader (whose numeric inference accepts neither "1_000" nor
   * full-width digits); what is claimed of it is only the round trip on the
   * rows Cells writes.
   */
  function ReadCells(cells: seq<string>): Option<Record> {
    if |cells| != |Columns| then None
    else match ParseInt(cells[5])
      case None => None
      case Some(amount) => Some(Record(cells[0], cells[1], cells[2], cells[3], cells[4], amount))
  }

  function BodyCells(rows: seq<Record>): (body: seq<seq<string>>)
    ensures |body| == |rows|
  {
    if rows == [] then [] else [Cells(rows[0])] + BodyCells(rows[1..])
  }

  /** The table a sequence of records is written as. */
  function Table(rows: seq<Record>): seq<seq<string>> {
    [Columns] + BodyCells(rows)
  }

  function ReadBody(body: seq<seq<string>>): Option<seq<Record>> {
    if body == [] then Some([])
    else match (ReadCells(body[0]), ReadBody(body[1..]))
      case (Some(r), Some(rest)) => Some([r] + rest)
      case _ => None
  }

  /** Reads a table back: the header must be the six column names, every row a record. */
  function ReadTable(table: seq<seq<string>>): Option<seq<Record>> {
    if table == [] || table[0] != Columns then None else ReadBody(table[1..])
  }

  lemma CellsRoundTrip(r: Record)
    ensures ReadCells(Cells(r)) == Some(r)
  {
    ParseIntRoundTrip(r.amount);
  }

  lemma {:induction false} BodyRoundTrip(rows: seq<Record>)
    ensures ReadBody(BodyCells(rows)) == Some(rows)
  {
    if rows != [] {
      var body := BodyCells(rows);
      CellsRoundTrip(rows[0]);
      BodyRoundTrip(rows[1..]);
      assert body[1..] == BodyCells(rows[1..]);
      assert [rows[0]] + rows[1..] == rows;
    }
  }

  /** Reading the table back yields exactly the records written, in order, all six fields intact. */
  lemma TableRoundTrip(rows: seq<Record>)
    ensures ReadTable(Table(rows)) == Some(rows)
  {
    BodyRoundTrip(rows);
    assert Table(rows)[1..] == BodyCells(rows);
  }

  /** Appending a record adds exactly one row at the end; every earlier row is unchanged. */
  lemma {:induction false} TableAppend(rows: seq<Record>, r: Record)
    ensures Table(rows + [r]) == Table(rows) + [Cells(r)]
  {
    BodyAppend(rows, r);
  }

  lemma {:induction false} BodyAppend(rows: seq<Record>, r: Record)
    ensures BodyCells(rows + [r]) == BodyCells(rows) + [Cells(r)]
  {
    if rows == [] {
      assert rows + [r] == [r];
    } else {
      assert (rows + [r])[1..] == rows[1..] + [r];
      BodyAppend(rows[1..], r);
    }
  }

  /** A table with no records is the header alone. */
  lemma EmptyTable()
    ensures Table([]) == [Columns]
  {
  }
}
