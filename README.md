# Expense recording app: a Dafny model of its record store and exports

The expense app (`keihi_app/main.py`) keeps one CSV table of expense records:
a header row with six column names (project, used date, submitter,
description, category, amount), then one row per record in registration
order. Registering reads the amount through Python's `int()`, then reads the
whole table, appends the row and rewrites the table. Two exports read the
table, keep the rows of one calendar month or of one project, and write
them to `<year>-<month>_経費一覧.csv` or `<project>_経費一覧.csv`. A reset
replaces the table with the header alone once the user confirms.

The model works like this:

- **Data file.** The data file's state is a value `Option<seq<Record>>`. `None` means the file does not exist.
- **Store.** `Store.ExpenseStore` is a class holding that state. Its methods (`Init`, `Register`, `Save`, `Reset`, `ExportMonthly`, `ExportByProject`) change it in place, as the GUI callbacks do.
- **Export folder.** `Export.ExportFolder` maps file names to the rows each file holds.
- **Pure parts.** These are functions with lemmas about them:
  - the amount conversion (`IntText`);
  - the date format (`Dates`);
  - the table layout (`Records`);
  - the project and month filters (`Selection`);
  - the outcome of each export (`Export.MonthlyExport`, `Export.ProjectExport`).
- **Filters.** Each filter is written the way pandas computes it: a per-row boolean mask, then the rows where the mask is true. Each is proved equal to the reference `Selection.Select`, the order-preserving selection of matching rows.
- **Outside world.** The dialogs and the confirmation box become parameters:
  - the typed year, month and project name are strings, and a Cancel is modelled as the empty string;
  - the yes/no answer of the reset confirmation is a `bool`.

Modules: `Wrappers` (Option), `IntText`, `Dates`, `Records`, `Selection`,
`Export`, `Store`, `Scenarios` (the worked examples).

Three behaviours of the code that are easy to misread:

- **Reset.** Resetting the data is gated by a yes/no confirmation in `reset_all_data`, so `Reset` takes the answer as a parameter.
- **Month export errors.** A month export whose inputs are not integers, or whose table holds an unparseable date, ends in an uncaught exception, with nothing written and no message. The model reports this as `Aborted`.
- **Month export order.** `export_monthly` converts the whole date column before it converts the year and month texts. So a bad date is reported before a bad year or month.

## Model

| member | source | states |
|---|---|---|
| IntText.ParseIntRoundTrip | keihi_app/main.py:152 | an amount written with str() (as to_csv writes an integer cell) and read back with int() gives the same integer, negative amounts included |
| IntText.ParseIntIgnoresPadding | keihi_app/main.py:152 | the white space int() strips (space, tab to carriage return, and the non-ASCII str.isspace characters) around the amount text never changes whether int() accepts it or the value it yields |
| IntText.RejectsSeparatorPadding | keihi_app/main.py:151-155 | an information separator (U+001C), though str.isspace() holds for it, is not stripped: "\x1c5" is rejected as an amount |
| IntText.ParseIntCharacters | keihi_app/main.py:151-155 | every accepted amount, once stripped, is nonempty and made only of digits, underscores and at most one leading sign, so "12.5" or "1e3" raise ValueError |
| IntText.RejectsExamples | keihi_app/main.py:151-155 | the amounts "abc", "12.5" and "" are rejected |
| Dates.DaysInMonth | keihi_app/main.py:180 | month lengths are 28 to 31 days, and 29 exactly for February of a Gregorian leap year |
| Dates.ParseDate | keihi_app/main.py:180 | a used date that parses is a day that exists in the calendar |
| Dates.FormatThenParse | keihi_app/main.py:65 | every date written "%Y-%m-%d" (the form the date entry is pre-filled with) parses back as that date |
| Dates.ParseThenFormat | keihi_app/main.py:180 | a text that parses is the canonical "%Y-%m-%d" text of its date |
| Records.CellsRoundTrip | keihi_app/main.py:35-44 | reading back a written row gives the record, all six fields intact |
| Records.TableRoundTrip | keihi_app/main.py:34-44 | reading back the written table gives exactly the records, in order |
| Records.TableAppend | keihi_app/main.py:43-44 | appending a record adds exactly one row at the end and leaves the header and every earlier row unchanged |
| Selection.Select | keihi_app/main.py:181 | the selection is never longer than the table |
| Selection.SelectCounts | keihi_app/main.py:181 | each matching record occurs in the selection as often as in the table, and no non-matching record occurs at all |
| Selection.SelectConcat | keihi_app/main.py:207 | selection preserves table order: selecting from a concatenation concatenates the selections |
| Selection.SelectMatches | keihi_app/main.py:207 | every selected row matches the criterion |
| Selection.SelectEmpty | keihi_app/main.py:183 | the selection is empty exactly when no row matches |
| Selection.MaskIsSelect | keihi_app/main.py:181 | applying a mask that is true exactly where a row matches keeps the same rows as Select |
| Selection.FilterByProject | keihi_app/main.py:207 | the project filter keeps exactly the rows of that project, in order |
| Selection.ToDatetime | keihi_app/main.py:180 | conversion succeeds with one date per cell, each the parse of its cell, or fails because some cell does not parse |
| Selection.FilterByMonth | keihi_app/main.py:180-181 | the month filter fails exactly when some used date does not parse, whatever month is asked for; otherwise it keeps exactly the rows of that year and month, in order |
| Export.MonthlyExport | keihi_app/main.py:172-191 | the export is cancelled exactly when the year or the month is empty; a written file is named from the texts as typed and is never empty |
| Export.ProjectExport | keihi_app/main.py:199-217 | the export is cancelled exactly when the name is empty; a written file is named from the name and is never empty |
| Export.MonthlyExportSelects | keihi_app/main.py:178-185 | with integer inputs and a parseable table, the month export concludes on Select of that month |
| Export.MonthlyExportWritten | keihi_app/main.py:175-189 | a month file is written exactly when both inputs are given, the table exists, every date parses, both inputs are integers and some row falls in that month; it holds exactly those rows, in order |
| Export.MonthlyExportNoData | keihi_app/main.py:183-185 | "no data" is reported exactly when the inputs are usable and no row falls in that month |
| Export.OneBadDateAborts | keihi_app/main.py:180 | one unparseable used date anywhere aborts every month export |
| Export.ProjectExportWritten | keihi_app/main.py:201-215 | a project file is written exactly when a name is given, the table exists and some row has that project; it holds exactly that project's rows in order; "no data" exactly when no row has it |
| Export.ProjectFilterAfterAppend | keihi_app/main.py:43 | a record registered later adds only itself, at the end, to a later project export of its project, and nothing to others |
| Export.MonthFilterAfterAppend | keihi_app/main.py:181 | a later record with a parseable date adds only itself, at the end, to the export of its own month |
| Export.ProjectExportNameInjective | keihi_app/main.py:214 | distinct project names give distinct file names |
| Export.MonthlyExportNameInjective | keihi_app/main.py:188 | for one year text, distinct month texts give distinct file names |
| Export.ExportNamesShareFolder | keihi_app/main.py:188 | a project named "Y-M" is exported to the file the month export of Y and M writes |
| Export.ExportFolder.constructor | keihi_app/main.py:18 | the folder starts with the files it already holds |
| Export.ExportFolder.Write | keihi_app/main.py:189 | writing creates or overwrites the named file and changes no other file |
| Store.ExpenseStore.constructor | keihi_app/main.py:17 | the store starts from the data file as found |
| Store.ExpenseStore.Init | keihi_app/main.py:27-29 | a missing data file is created holding the header alone; an existing one is left unchanged |
| Store.ExpenseStore.Load | keihi_app/main.py:34 | a read returns the table as last written |
| Store.ExpenseStore.Save | keihi_app/main.py:33-44 | with the data file present the record is appended at the end and everything else is kept; without it nothing changes and the save reports failure |
| Store.ExpenseStore.Register | keihi_app/main.py:150-160 | an amount int() rejects changes nothing; a valid amount appends the record with the six fields in column order and the integer amount; a missing table changes nothing |
| Store.ExpenseStore.Reset | keihi_app/main.py:221-225 | once confirmed the table is the header alone; declined, nothing changes |
| Store.ExpenseStore.ExportMonthly | keihi_app/main.py:168-191 | the outcome is MonthlyExport of the current table; the store is not changed, and the folder gains or overwrites one file only when that file is written |
| Store.ExpenseStore.ExportByProject | keihi_app/main.py:195-217 | the outcome is ProjectExport of the current table; the store is not changed, and the folder changes only when that file is written |
| Store.RegisterResetScenario | keihi_app/main.py:150-160 | two registrations are read back in order, a declined reset keeps them, a confirmed reset empties the table, and a later registration is its only row |
| Scenarios.FirstTwoOfThree | keihi_app/main.py:178-189 | of three rows, the two in the asked month are written, in order |
| Scenarios.SeptemberExample | keihi_app/main.py:178-189 | rows used on 2025-09-01, 2025-09-30 and 2025-10-01, exported for "2025" and "09": the first two are written to "2025-09_経費一覧.csv" |
| Scenarios.ProjectExample | keihi_app/main.py:204-215 | in a table of PJ-A and PJ-B rows, the rows of PJ-A are written in order, and "PJ-C" finds no data |

## Left out

- The tkinter interface is not modelled: the widgets and fonts, the Treeview refresh (`load_data_to_tree`), clearing the fields after a registration, and the info and error message boxes. Each message corresponds to one outcome constructor.
- The Windows DPI call through ctypes is not modelled, because it has no effect on the data.
- Directory creation and file paths are not modelled. Neither are the file encoding (utf-8-sig with a BOM on rewrite, the default on creation) or CSV quoting. The table is modelled as a sequence of rows of cells (`Records.Table`) and the data file as the records it holds.
- I/O failures other than a missing data file are not modelled: permissions, a full disk, an interrupted rewrite. Neither is concurrent access.
- A project name with characters a file name cannot hold makes `to_csv` fail; the model treats every name as writable.
- Export.ExportFolder: the folder is keyed by the file-name text, not by the path the operating system resolves. `os.path.join` discards the export folder for an absolute name such as "/tmp/x". Names such as "./PJ-A" and "PJ-A" resolve to one file. So do "PJ-A" and "pj-a" on a case-insensitive file system such as Windows. So distinct file names need not be distinct files.
- Store.ExpenseStore.Load: pandas type inference on read is not modelled, and the model does not promise the following.
  - Empty cells are not read as NaN.
  - A numeric-looking project name is not read back as a number. In pandas it would then never equal the typed name.
  - A used date that is empty or "NA" is not read as NaT. pandas would skip such a row silently, whereas the model aborts the month export.
  - What `read_csv` infers is written back by the full rewrite in `save_data`, so it changes earlier rows. An all-numeric text column comes back as numbers ("007" becomes "7"). A numeric column with an empty cell becomes floating point ("1" becomes "1.0").
- Store.ExpenseStore.Save and Records.TableAppend: "every earlier row is unchanged" holds of the records. It does not hold of the cell texts pandas writes back, for the reason in the line above.
- Dates.ParseDate: accepts only strict `YYYY-MM-DD` dates with years 1 to 9999. The model does not capture the other formats `pd.to_datetime` infers, or the narrower 1677-2262 range of pandas timestamps.
- IntText.ParseInt: accepts ASCII and full-width decimal digits only, not the other Unicode decimal digits Python's `int()` also accepts.
- IntText.ParseInt: has no limit on the number of digits. Python 3.11 and later (and the 3.10.7 backport) raise ValueError for more than 4300 digits by default, which the register button reports as an amount error. `str()` is limited the same way. Such amounts lie far beyond the 64-bit amount column anyway (see Records.Record below).
- Records.Record: the amount is an unbounded integer. The model ignores the 64-bit width pandas gives a numeric column, and the overflow or object-column fallback for larger amounts.
- Dialog Cancel, which gives `None` in Python, is modelled as the empty string; both cancel an export the same way.
