/**
 * The data file and the operations that read and rewrite it: start-up
 * creation, registration (amount validation, then read, append and full
 * rewrite), confirmed reset, and the two exports.
 */
module Store {
  import opened Wrappers
  import opened IntText
  import opened Records
  import opened Selection
  import opened Export

  /** What pressing the register button leads to. */
  datatype Registration =
    | Registered(record: Record)   // the record was appended to the table
    | AmountRejected               // int(amount) failed: an error is shown, nothing is read or written
    | TableUnreadable              // the data file is missing, so the read before the rewrite fails

  class ExpenseStore {
    /** The data file: None while it does not exist, otherwise the records of its table in order. */
    var file: Option<seq<Record>>

    /** The data file as found on disk when the program starts. */
    constructor (found: Option<seq<Record>>)
      ensures file == found
    {
      file := found;
    }

    /** Start-up: a missing data file is created as the header alone; an existing one is left as it is. */
    method Init()
      modifies this
      ensures file == if old(file).None? then Some([]) else old(file)
    {
      if file.None? {
        file := Some([]);
      }
    }

    /** read_csv of the data file: every read sees the whole table as last written. */
    method Load() returns (rows: Option<seq<Record>>)
      ensures rows == file
    {
      rows := file;
    }

    /** save_data: read the table, append the record, rewrite the whole table. */
    method Save(r: Record) returns (saved: bool)
      modifies this
      ensures saved == old(file).Some?
      ensures file == if saved then Some(old(file).value + [r]) else old(file)
    {
      var current := Load();
      match current {
        case None =>
          saved := false;
        case Some(rows) =>
          file := Some(rows + [r]);
          saved := true;
      }
    }

    /**
     * on_register: the amount text is converted with int() first; only a
     * valid amount leads to save_data with the six fields in column order.
     */
    method Register(project: string, usedDate: string, submitter: string, description: string,
                    category: string, amountText: string) returns (outcome: Registration)
      modifies this
      ensures ParseInt(amountText).None? ==> outcome == AmountRejected && file == old(file)
      ensures ParseInt(amountText).Some? && old(file).None? ==> outcome == TableUnreadable && file == old(file)
      ensures ParseInt(amountText).Some? && old(file).Some? ==>
        var r := Record(project, usedDate, submitter, description, category, ParseInt(amountText).value);
        outcome == Registered(r) && file == Some(old(file).value + [r])
    {
      match ParseInt(amountText) {
        case None =>
          outcome := AmountRejected;
        case Some(amount) =>
          var r := Record(project, usedDate, submitter, description, category, amount);
          var saved := Save(r);
          outcome := if saved then Registered(r) else TableUnreadable;
      }
    }

    /** reset_all_data: once confirmed, the table is replaced by the header alone; declined, nothing changes. */
    method Reset(confirmed: bool)
      modifies this
      ensures file == if confirmed then Some([]) else old(file)
    {
      if confirmed {
        file := Some([]);
      }
    }

    /** export_monthly: the store is only read; the folder changes only when a file is written. */
    method ExportMonthly(year: string, month: string, folder: ExportFolder) returns (res: ExportResult)
      modifies folder
      ensures res == MonthlyExport(year, month, file)
      ensures folder.files == if res.Written? then old(folder.files)[res.name := res.rows] else old(folder.files)
    {
      if year == "" || month == "" {
        return Cancelled;
      }
      var table := Load();
      if table.None? {
        return Aborted(TableMissing);
      }
      var rows := table.value;
      var dates := ToDatetime(DateColumn(rows));
      if dates.None? {
        return Aborted(DateUnparseable);
      }
      var y := ParseInt(year);
      if y.None? {
        return Aborted(YearNotInteger);
      }
      var m := ParseInt(month);
      if m.None? {
        return Aborted(MonthNotInteger);
      }
      var kept := FilterByMonth(rows, y.value, m.value).value;
      if kept == [] {
        return NoData;
      }
      var name := MonthlyExportName(year, month);
      folder.Write(name, kept);
      res := Written(name, kept);
    }

    /** export_by_pj: the store is only read; the folder changes only when a file is written. */
    method ExportByProject(name: string, folder: ExportFolder) returns (res: ExportResult)
      modifies folder
      ensures res == ProjectExport(name, file)
      ensures folder.files == if res.Written? then old(folder.files)[res.name := res.rows] else old(folder.files)
    {
      if name == "" {
        return Cancelled;
      }
      var table := Load();
      if table.None? {
        return Aborted(TableMissing);
      }
      var kept := FilterByProject(table.value, name);
      if kept == [] {
        return NoData;
      }
      var fileName := ProjectExportName(name);
      folder.Write(fileName, kept);
      res := Written(fileName, kept);
    }
  }

  /**
   * A caller's view of the contracts: two registrations are read back in
   * order, a declined reset keeps them, a confirmed reset empties the table,
   * and a later registration is the only row.
   */
  method RegisterResetScenario(amount: int) returns (afterTwo: seq<Record>, afterReset: seq<Record>, afterThird: seq<Record>)
    ensures afterTwo == [Record("PJ-A", "2025-09-01", "山田", "タクシー", "交通費", amount),
                         Record("PJ-B", "2025-09-02", "佐藤", "会議室", "会議費", amount)]
    ensures afterReset == []
    ensures afterThird == [Record("PJ-C", "2025-09-03", "鈴木", "新幹線", "旅費", amount)]
  {
    var store := new ExpenseStore(None);
    store.Init();
    var amountText := IntToText(amount);
    ParseIntRoundTrip(amount);
    var first := store.Register("PJ-A", "2025-09-01", "山田", "タクシー", "交通費", amountText);
    var second := store.Register("PJ-B", "2025-09-02", "佐藤", "会議室", "会議費", amountText);
    var table := store.Load();
    afterTwo := table.value;
    store.Reset(false);
    table := store.Load();
    assert table.value == afterTwo;
    store.Reset(true);
    table := store.Load();
    afterReset := table.value;
    var third := store.Register("PJ-C", "2025-09-03", "鈴木", "新幹線", "旅費", amountText);
    table := store.Load();
    afterThird := table.value;
  }
}
