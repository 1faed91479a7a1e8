/**
 * Tables as `pdfplumber` returns them: rows of cells. A missing cell (`None`)
 * is the empty string here: every extractor treats both alike.
 */
module Tables {
  import opened Text

  type Row = seq<string>
  type Table = seq<Row>

  /** Cell `k` of a row padded with empty cells, as the extractors pad short rows. */
  function Cell(row: Row, k: nat): string {
    if k < |row| then row[k] else ""
  }

  /** The cells that are present (`cell for cell in row if cell`). */
  function PresentCells(row: Row): (cs: seq<string>)
    ensures forall i :: 0 <= i < |cs| ==> cs[i] != []
  {
    if row == [] then []
    else if row[0] != [] then [row[0]] + PresentCells(row[1..])
    else PresentCells(row[1..])
  }

  /** `row_text`: the present cells joined with single spaces. */
  function RowText(row: Row): string {
    Join(" ", PresentCells(row))
  }

  /** A row with no cell holding anything but whitespace. */
  predicate Blank(row: Row) {
    forall k :: 0 <= k < |row| ==> Strip(row[k]) == []
  }
}
