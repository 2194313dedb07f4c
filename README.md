# Label printer from a spreadsheet — a Dafny model

`etiquetas.py` reads a spreadsheet of product lots and prints one ZPL label
per row on a network label printer. For each row it does four things:
- It converts every cell to text, reformatting the `Fecha` column as
  `DD/MM/YYYY` when it holds a date.
- It fills the named `{placeholders}` of a fixed ZPL template with that text.
- It sends the label to the printer.
- It pauses one second before the next row.

A row that lacks one of the template's columns is reported and skipped. A
sheet that cannot be loaded ends the run before any row. A completion notice
closes every run that loads.

The model has six modules:

- `Wrappers`: `Option` and `Result`.
- `Dates`: calendar dates and their `%d/%m/%Y` text. It proves that this text
  parses back to the same date, so the format is injective.
- `Rows`: spreadsheet cells and rows.
  - `Normalised` is the three-way `Fecha` rule stated as a function.
  - `NormaliseRow` is the same rule as the script writes it: stringify every
    cell, then overwrite `Fecha`.
- `Templates`: the subset of Python's `str.format` that the script relies on.
  - A template is a sequence of literal characters and named fields.
  - `Render` fills the fields from left to right. It fails with
    `MissingKey(name)`, the model's `KeyError`, at the first field whose name
    the row does not supply.
  - `Tokenize` and `Untokenize` relate a template's text, including the
    `{{`/`}}` escapes, to its pieces.
- `Label`: the script's own ZPL template.
  - It has ten fields: eight one-per-line values, then the lot and package
    again in the barcode.
  - The proofs cover: which rows it renders, which column a failure names,
    and what the rendered label contains.
- `Dispatch`: the batch loop.
  - It is an imperative method whose effects form a trace of events:
    `Entry`, `Sent`, `Acknowledged`, `Pause`, `MissingField`, `LoadAborted`
    and `Done`.
  - The method is proved equal to the trace function `RunEvents`.
  - Lemmas connect `RunEvents` to the promised behaviour:
    - rows are processed in order, one outcome each;
    - sends and pauses pair up;
    - the sender never reports a status;
    - the completion notice comes last, and only when the sheet loaded;
    - every row is sent when every row has the seven label columns.

Inputs the model takes as parameters:
- The loaded sheet, which is either a sequence of rows or a load error.
- The template.

The printer address, the port and the spreadsheet path are not part of the
model.

The pause follows only a successful send: `asyncio.sleep(1)` sits inside the
`try`, after the send (`etiquetas.py:76-91`), so a row whose fill raised
`KeyError` gets no pause. `RowEvents` and `Paced` state this.

## Model

| member | source | states |
|---|---|---|
| Dates.Pad | etiquetas.py:64 | a number below 10^width is written as exactly `width` decimal digits, with leading zeros |
| Dates.ValueOfPad | etiquetas.py:64 | the zero-padded digits read back as the number they encode |
| Dates.PadOfValue | etiquetas.py:64 | any digit string is the zero-padded form of its value at its own width |
| Dates.FormatDate | etiquetas.py:64 | `%d/%m/%Y` text is ten characters: two day digits, `/`, two month digits, `/`, four year digits |
| Dates.ParseFormatDate | etiquetas.py:64 | reading the `%d/%m/%Y` text of a date gives back that date |
| Dates.FormatParsedDate | etiquetas.py:64 | any text that reads as a date is exactly that date's `%d/%m/%Y` text |
| Dates.FormatDateInjective | etiquetas.py:64 | two different dates never print as the same `Fecha` text |
| Rows.Normalised | etiquetas.py:60-70 | the row's keys plus `Fecha`. Each other column is its cell's string form. `Fecha` holds the formatted date for a date cell, the text itself for a text cell, and `Fecha no disponible` when the column is missing or holds anything else |
| Rows.NormaliseRow | etiquetas.py:60-70 | stringifying the row, then overwriting `Fecha` branch by branch, yields exactly `Normalised(row)` |
| Rows.FechaReadsBackAsDate | etiquetas.py:63-70 | when the cell is not text, the normalised `Fecha` parses as a date exactly when the cell held a date, and then it parses to that date |
| Templates.FieldNamesOccur | etiquetas.py:79 | a name is listed among the template's fields exactly when some piece of the template is that field |
| Templates.Render | etiquetas.py:79 | filling succeeds exactly when every field's name is in the row. A failure names a field of the template that the row lacks |
| Templates.RenderAppend | etiquetas.py:79 | filling a concatenation of two templates fails with the first part's error if it fails. Otherwise it is the first part's text followed by the second part's result |
| Templates.RenderThree | etiquetas.py:79 | a filled three-part template is the concatenation of its three filled parts |
| Templates.RenderLiteral | etiquetas.py:79 | literal text fills to itself, whatever the row |
| Templates.RenderAt | etiquetas.py:79 | in a filled template, each field is replaced by exactly the row's value for its name |
| Templates.RenderCharAt | etiquetas.py:79 | in a filled template, each literal character is copied unchanged |
| Templates.RenderFailsAtFirstMissing | etiquetas.py:79 | the fill fails with `MissingKey(n)` if and only if `n` is the row-absent name of a field whose earlier fields are all present |
| Templates.RenderErrorIsFirstMissingName | etiquetas.py:79 | the name in a failure is the first name in the field list that the row lacks |
| Templates.RenderDependsOnlyOnFields | etiquetas.py:79 | two rows that agree on the template's field names fill it identically |
| Templates.FieldNamesAppend | etiquetas.py:79 | the fields of a concatenation are the fields of the first part followed by those of the second |
| Templates.FieldNamesLiteral | etiquetas.py:79 | literal text has no fields |
| Templates.RenderContains | etiquetas.py:79 | every field of a filled template appears in the row, and its value occurs in the output |
| Templates.NameEnd | etiquetas.py:79 | a field name extends up to the first `{`, `}`, `!`, `:`, `.` or `[` (or to the end of the text) |
| Templates.NameEndOfName | etiquetas.py:79 | the name scan stops exactly at the first such character |
| Templates.Tokenize | etiquetas.py:79 | template text read as `str.format` reads its plain named fields: whatever it reads is a plain template. Every field name is non-empty, free of format syntax and not made only of ASCII digits, which are positional. The escapes are covered by the two round trips below |
| Templates.TokenizeUntokenize | etiquetas.py:79 | writing out a plain-field template, with braces doubled, and reading it again gives the same pieces |
| Templates.UntokenizeTokenize | etiquetas.py:79 | any text that reads as a template is plain and is exactly that template written out |
| Label.FieldNamesOfHead | etiquetas.py:107-174 | the eight one-per-line fields are, in order, `DescProducto`, `DescProveedor`, `Lote`, `Paquete`, `Fecha`, `Variante`, `Agricultor` and `Origen` |
| Label.FieldNamesOfBarcode | etiquetas.py:175 | the barcode line's fields are `Lote` then `Paquete` |
| Label.LabelFieldNames | etiquetas.py:107-178 | the label's ten fields, in template order. `Lote` and `Paquete` each occur twice |
| Label.LabelFieldsArePlain | etiquetas.py:121-175 | every field name of the label is a plain keyword name: not empty, not all digits, with no format syntax |
| Label.LabelIsPlain | etiquetas.py:107-178 | a label of this shape uses only plain fields, and its text reads back as itself |
| Label.LabelTemplate | etiquetas.py:107-178 | the script's exact label text, character for character. Its fields are the ten above, and its written-out text reads back as exactly these pieces, so it lies within the modelled subset of `str.format` |
| Label.LabelRendersIff | etiquetas.py:79 | a row fills the label if and only if it has all seven label columns. `Fecha` is never needed, and extra columns are ignored |
| Label.LabelMissingColumn | etiquetas.py:93-94 | when the fill fails, the `KeyError` names the first label column, in template order, that the row lacks |
| Label.BarcodeRenders | etiquetas.py:175 | the barcode line fills to `^FD` + lot + `-` + package + `^FS` |
| Label.LabelBarcode | etiquetas.py:175 | a filled label contains the barcode line built from the row's `Lote` and `Paquete` |
| Label.LabelShowsDate | etiquetas.py:149 | for a row with a date in `Fecha`, the filled label contains that date's `DD/MM/YYYY` text |
| Label.LabelShowsColumns | etiquetas.py:121-175 | every label column is in a filled row, and its string form occurs on the label |
| Dispatch.SendCode | etiquetas.py:6-28 | the sender records one send of the label and returns no status |
| Dispatch.ProcessRow | etiquetas.py:54-96 | one loop pass yields `RowEvents`. On a successful fill these are an entry, one send and one pause; on a `KeyError` they are an entry and the report of the missing field |
| Dispatch.PrintFromSheet | etiquetas.py:40-98 | the run yields exactly `RunEvents`. A failed load gives only its report. Otherwise it gives the rows' events in row order, then the completion notice |
| Dispatch.StepViews | etiquetas.py:54-96 | each row contributes one entry, one outcome and at most one sent label |
| Dispatch.RowsProcessedInOrder | etiquetas.py:53-54 | the entries of a run are numbered 1, 2, …, n, one per row |
| Dispatch.RowsEntries | etiquetas.py:53-54 | the rows' events hold the entries 1 … n in order |
| Dispatch.OneOutcomePerRow | etiquetas.py:76-96 | a run has exactly one outcome per row, in row order: the label filled from that row is sent, or the first missing field is reported |
| Dispatch.RowsOutcomes | etiquetas.py:76-96 | the rows' events hold those outcomes in row order |
| Dispatch.MissedFieldIsAbsentColumn | etiquetas.py:93-94 | a reported field is a field of the template that the row lacks, and it is never `Fecha` |
| Dispatch.EveryRowSent | etiquetas.py:79-91 | when every row fills, the labels sent are the rows' filled templates, one per row, in row order |
| Dispatch.RowsSent | etiquetas.py:79-91 | the same, for the rows' events only |
| Dispatch.PacedAppend | etiquetas.py:84-91 | pairing of sends and pauses survives putting two traces together |
| Dispatch.RowTrafficAppend | etiquetas.py:53-96 | two traces made only of per-row events put together are still such a trace |
| Dispatch.StepShape | etiquetas.py:84-91 | one row's events pair each send with the pause right after it |
| Dispatch.RowsShape | etiquetas.py:53-96 | the rows' events are only per-row events, and each send is immediately followed by a pause, and each pause immediately preceded by a send |
| Dispatch.RunShape | etiquetas.py:40-98 | in a whole run, sends and pauses pair up, and the sender's status branch never fires. The completion notice is the last event, appears nowhere else, and appears if and only if the sheet loaded. A load failure is reported if and only if loading failed |
| Dispatch.LabelRunSendsEveryRow | etiquetas.py:53-98 | with the script's label, when every row has all seven label columns, every row's label is sent, in row order |

## Left out

- Reading the spreadsheet (`pd.read_excel`) is not modelled. The sheet is an
  input that is either rows in order or a load error, kept as
  `FileNotFound` or `ReadError`. Both errors end the run.
- Row numbers assume the default 0-based row index of a freshly read sheet.
  `index + 1` then gives 1 … n.
- Rows.Str: `astype(str)` of a number, date or empty cell is not modelled.
  Each non-text cell carries the text pandas would show for it, and a text
  cell shows its own text.
- Missing values (`NaN`, `NaT`) are not modelled. A `NaT` in `Fecha` passes
  the date test, and its `strftime` would raise outside the `try`, ending the
  whole run. Only `Fecha` values that are real dates, with years 1 to 9999,
  are modelled.
- Dates.FormatDate: writes years with four digits. Platforms differ in how
  `%Y` pads years below 1000.
- Templates.Tokenize: the model covers only plain named fields and the
  `{{`/`}}` escapes of `str.format`. Text with format specs, conversions,
  attribute or index access, empty names, names made only of ASCII digits
  (positional), or a lone brace reads as `None`. A name made only of decimal
  digits that include a non-ASCII one, such as `{٣}`, is read as a keyword
  field. `str.format` treats such a name as positional and raises
  `IndexError`, which the script would catch at `etiquetas.py:95-96`. The
  script's own template lies inside the modelled subset
  (`Label.LabelTemplate`).
- Dispatch.PrintFromSheet: the generic `except Exception` at
  `etiquetas.py:95-96` never fires in the model. Within the modelled subset,
  filling can only fail with `KeyError`, and the sender never raises.
- Dispatch.PrintFromSheet: column headers are modelled as text only
  (`Row = map<string, Cell>`). A header cell that is a number or a date would
  make `format(**datos_fila)` raise `TypeError` (keywords must be strings) on
  every row. That error would land in the generic handler at
  `etiquetas.py:95-96`, and the model does not capture it.
- Dates.Date: checks only the range of each component, so it also admits
  impossible days such as 31 February. `ParseDate` reads "31/02/2024" as a
  date although no spreadsheet cell can hold it. The round trips are stated
  over this larger type, so they cover every real date.
- Dispatch.SendCode: the Telnet connection, the write, the drain and the
  close, the two caught error kinds and their messages are not modelled. They
  are I/O, and every failure is caught inside the sender. The sender returns
  no status, so the acknowledgement branch at `etiquetas.py:87-88` is dead,
  and `RunShape` proves that.
- The console messages are not modelled; only the event each one announces
  is kept.
- `asyncio` scheduling and the exact one-second length of the pause are not
  modelled. Each pause is a `Pause` event.
- The constants under `__main__` are not modelled: the printer address, the
  port and the spreadsheet path. The template text is included, as
  `Label.ZplText`.
