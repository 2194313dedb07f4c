/** One spreadsheet row as the printer sees it, and the dictionary of text
    values it builds from that row before filling the label template. */
module Rows {
  import opened Wrappers
  import opened Dates

  /** A cell value as the spreadsheet reader hands it over. `shown` is the
      text that stringifying the cell yields; the reader decides it, so the
      model takes it as given. A text cell stringifies to itself. */
  datatype Cell =
    | DateCell(date: Date, shown: string)   // a `datetime.date` or `pandas.Timestamp`
    | TextCell(text: string)                // a `str`
    | OtherCell(shown: string)              // a number, a missing value, anything else

  /** A row: column header to cell. */
  type Row = map<string, Cell>

  /** The per-row dictionary of text values passed to the template. */
  type Fields = map<string, string>

  const FechaColumn: string := "Fecha"
  const Unavailable: string := "Fecha no disponible"

  /** The text of a cell after stringification. */
  function Str(c: Cell): string {
    match c
    case DateCell(_, shown) => shown
    case TextCell(text) => text
    case OtherCell(shown) => shown
  }

  /** The normalised row: every column stringified, then the `Fecha` entry
      chosen by the type of the ORIGINAL cell. */
  function Normalised(row: Row): (r: Fields)
    ensures r.Keys == row.Keys + {FechaColumn}
    ensures forall k | k in row && k != FechaColumn :: r[k] == Str(row[k])
    ensures FechaColumn in row && row[FechaColumn].DateCell? ==>
              r[FechaColumn] == FormatDate(row[FechaColumn].date)
    ensures FechaColumn in row && row[FechaColumn].TextCell? ==>
              r[FechaColumn] == row[FechaColumn].text
    ensures FechaColumn !in row || row[FechaColumn].OtherCell? ==>
              r[FechaColumn] == Unavailable
  {
    var text := map k | k in row :: Str(row[k]);
    if FechaColumn in row then
      match row[FechaColumn]
      case DateCell(d, _) => text[FechaColumn := FormatDate(d)]
      case TextCell(_) => text
      case OtherCell(_) => text[FechaColumn := Unavailable]
    else
      text[FechaColumn := Unavailable]
  }

  /** Builds the dictionary the way the printer does: stringify the whole
      row, then overwrite `Fecha` in place unless it already holds text. */
  method NormaliseRow(row: Row) returns (datos: Fields)
    ensures datos == Normalised(row)
  {
    datos := map k | k in row :: Str(row[k]);
    if FechaColumn in row && row[FechaColumn].DateCell? {
      datos := datos[FechaColumn := FormatDate(row[FechaColumn].date)];
    } else if FechaColumn in row && row[FechaColumn].TextCell? {
      // already a string: kept as it is
    } else {
      datos := datos[FechaColumn := Unavailable];
    }
  }

  /** Unless the original `Fecha` cell was text, the normalised `Fecha` reads
      back as a date exactly when the original cell held a date, and then as
      that very date; the "no date" notice never reads as one. */
  lemma FechaReadsBackAsDate(row: Row)
    requires FechaColumn !in row || !row[FechaColumn].TextCell?
    ensures var back := ParseDate(Normalised(row)[FechaColumn]);
      && (back.Some? <==> FechaColumn in row && row[FechaColumn].DateCell?)
      && (back.Some? ==> back.value == row[FechaColumn].date)
  {
    if FechaColumn in row && row[FechaColumn].DateCell? {
      ParseFormatDate(row[FechaColumn].date);
    }
  }
}
