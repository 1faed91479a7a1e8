/**
 * `extract_magic_fx_data` and `parse_magic_fx_line`: a MagicFX order read
 * from the first page, either from its first table (after the header row) or,
 * when the page has no table, from its text lines (after the Code/Description
 * header line). Lines are numbered 1, 2, ... in the order records are made.
 */
module MagicFx {
  import opened Wrappers
  import opened Text
  import opened Digits
  import opened Numeric
  import opened Keys
  import opened Dates
  import opened Records
  import opened Tables
  import opened Sequences
  import opened MagicFxPatterns

  /** A page as `pdfplumber` returns it: its text and its tables. */
  datatype Page = Page(text: string, tables: seq<Table>)

  /** What every record of an order shares, and the date parser (`strptime` with `%d-%m-%Y`). */
  datatype Context = Context(po: string, poDate: Option<Date>, parseDate: DateParser)

  // ---------------------------------------------------------------------------
  // Document fields

  /** `po_number`: the digits after "Purchase Order No.", or "". */
  function OrderPo(text: string): (po: string)
    ensures po == [] || IsDigitString(po)
  {
    match DigitsAfter(text, "Purchase Order No.")
    case Some(d) => d
    case None => []
  }

  /** The document context read from the first page's text. */
  function ContextOf(text: string, parseDate: DateParser): (ctx: Context)
    ensures ctx.po == OrderPo(text) && ctx.parseDate == parseDate
    ensures DateAfter(text, "Date").None? ==> ctx.poDate == None
  {
    var poDate := match DateAfter(text, "Date") case Some(d) => parseDate(d) case None => None;
    Context(OrderPo(text), poDate, parseDate)
  }

  // ---------------------------------------------------------------------------
  // The table path

  /** A header row: one of its cells mentions "Code" or "Description". */
  predicate IsHeaderRow(row: Row) {
    exists k :: 0 <= k < |row| && (Contains(row[k], "Code") || Contains(row[k], "Description"))
  }

  /** `header_row_index`: the first header row from row `i` on. */
  function HeaderFrom(table: Table, i: nat): (r: Option<nat>)
    ensures r.Some? ==> (i <= r.value < |table| && IsHeaderRow(table[r.value])
      && forall j :: i <= j < r.value ==> !IsHeaderRow(table[j]))
    ensures r.None? ==> forall j :: i <= j < |table| ==> !IsHeaderRow(table[j])
    decreases |table| - i
  {
    if i >= |table| then None
    else if IsHeaderRow(table[i]) then Some(i)
    else HeaderFrom(table, i + 1)
  }

  /** The totals, notes and address rows the table path passes over. */
  predicate IsSkipText(t: string) {
    Contains(t, "Total") || Contains(t, "Total Amount") || Contains(t, "EUR")
    || Contains(t, "Please note") || Contains(t, "Delivery address")
  }

  /** The cleaned cells of a data row. */
  datatype RowFields = RowFields(description: string, date: string, qty: string, netPrice: string, totalPrice: string)

  /** A price cell: European separators rewritten, a euro sign put in front when it has no currency symbol. */
  function PriceCell(cell: string): string {
    EuroPrefixed(EuToUs(Strip(cell)))
  }

  /** The description: cell 3, or cell 2 when cell 3 is empty. */
  function DescriptionCell(row: Row): string {
    if Strip(Cell(row, 3)) != [] then Strip(Cell(row, 3)) else Strip(Cell(row, 2))
  }

  /** The fields of a table row, or None for a row the table path passes over. */
  function RowFieldsOf(row: Row): Option<RowFields> {
    if Blank(row) || IsSkipText(RowText(row)) then None
    else
      var qty := ScrubAsWritten(Strip(Cell(row, 5)));
      if DescriptionCell(row) == [] && qty == [] then None
      else Some(RowFields(DescriptionCell(row), Strip(Cell(row, 4)), qty, PriceCell(Cell(row, 6)), PriceCell(Cell(row, 7))))
  }

  /** The fields of row `k`, as a function of `k`. */
  function RowFn(rows: seq<Row>): nat --> Option<RowFields> {
    (k: nat) requires k < |rows| => RowFieldsOf(rows[k])
  }

  /** The fields of every row, each decided on its own. */
  function RowOptions(rows: seq<Row>): (os: seq<Option<RowFields>>)
    ensures |os| == |rows|
  {
    Tabulate(RowFn(rows), |rows|)
  }

  /** The fields of the rows that make records, in order. */
  function RowItems(rows: seq<Row>): (fs: seq<RowFields>)
    ensures |fs| <= |rows|
  {
    Somes(RowOptions(rows))
  }

  /** The record of table item number `n`. */
  function TableRecord(ctx: Context, n: nat, f: RowFields): OrderRecord {
    OrderRecord(ctx.po, "N/A", Some(n), Some(MagicFxPoLine(ctx.po, n)), f.description,
      ParseDecimal(f.qty), ParseDecimal(f.netPrice), ParseDecimal(f.totalPrice),
      if f.date != [] then ctx.parseDate(f.date) else None, ctx.poDate, None)
  }

  /** The records of the table items, numbered from 1. */
  function TableRecords(ctx: Context, fs: seq<RowFields>): (rs: seq<OrderRecord>)
    ensures |rs| == |fs|
  {
    if fs == [] then [] else TableRecords(ctx, fs[..|fs| - 1]) + [TableRecord(ctx, |fs|, fs[|fs| - 1])]
  }

  /** The records of the table path: none without a header row. */
  function TableData(ctx: Context, table: Table): seq<OrderRecord> {
    match HeaderFrom(table, 0)
    case None => []
    case Some(h) => TableRecords(ctx, RowItems(table[h + 1..]))
  }

  // ---------------------------------------------------------------------------
  // The text path

  /** What the text walk does at one line, decided from the lines alone. */
  datatype TextStep =
    | HeaderLine                              // "Code" and "Description": the data starts
    | StopLine                                // "Total Amount" or "Delivery address"
    | OtherLine                               // nothing to take
    | ItemLine(groups: ItemGroups, extra: nat) // an item, using `extra` further lines

  /** The end of an item block: "Total Amount" or "Delivery". */
  predicate EndsBlock(line: string) {
    Contains(line, "Total Amount") || Contains(line, "Delivery")
  }

  /** A stripped next line that continues a one-line item's description. */
  predicate Continues(next: string) {
    next != [] && CodePair(next).None? && !EndsBlock(next)
  }

  /** An item whose date line was found at line `last`. */
  datatype Collected = Collected(groups: ItemGroups, last: nat)

  function MultiDescription(parts: seq<string>): string {
    Collapse(Strip(Join(" ", parts)))
  }

  /** The multi-line item: description lines from line `j` on until a date line with the amounts. */
  function MultiFrom(lines: seq<string>, j: nat, parts: seq<string>): (r: Option<Collected>)
    ensures r.Some? ==> (j <= r.value.last < |lines| && DateAt(r.value.groups.date)
      && IsDigitString(r.value.groups.amounts.qty))
    decreases |lines| - j
  {
    if j >= |lines| then None
    else
      var next := Strip(lines[j]);
      match DateLine(next)
      case Some(d) =>
        (match QtyPrice(d.1)
         case Some(a) => Some(Collected(ItemGroups(MultiDescription(parts), d.0, a), j))
         case None => MultiFrom(lines, j + 1, parts + [next]))
      case None =>
        if CodePair(next).Some? || EndsBlock(next) then None
        else MultiFrom(lines, j + 1, if next != [] then parts + [next] else parts)
  }

  /** The item that starts at line `i`, whose text after the two codes is `dataPart`. */
  function ItemAt(lines: seq<string>, i: nat, dataPart: string): (s: TextStep)
    requires i < |lines|
    ensures s.ItemLine? ==> i + s.extra < |lines| && DateAt(s.groups.date) && IsDigitString(s.groups.amounts.qty)
    ensures s.HeaderLine? == false && s.StopLine? == false
  {
    match SingleLine(dataPart)
    case Some(g) =>
      if i + 1 < |lines| && Continues(Strip(lines[i + 1])) then
        ItemLine(g.(description := g.description + " " + Strip(lines[i + 1])), 1)
      else ItemLine(g, 0)
    case None =>
      match MultiFrom(lines, i + 1, [dataPart])
      case Some(c) => ItemLine(c.groups, c.last - i)
      case None => OtherLine
  }

  /** The header line of the text path. */
  predicate IsHeaderLine(line: string) {
    Contains(line, "Code") && Contains(line, "Description")
  }

  /** The stop line of the text path. */
  predicate IsStopLine(line: string) {
    Contains(line, "Total Amount") || Contains(line, "Delivery address")
  }

  /** What the walk does at line `i`. */
  function LineStep(lines: seq<string>, i: nat): (s: TextStep)
    requires i < |lines|
    ensures s.HeaderLine? <==> IsHeaderLine(lines[i])
    ensures s.StopLine? <==> !IsHeaderLine(lines[i]) && IsStopLine(lines[i])
    ensures s.ItemLine? ==> (CodePair(Strip(lines[i])).Some? && i + s.extra < |lines|
      && DateAt(s.groups.date) && IsDigitString(s.groups.amounts.qty))
  {
    var line := lines[i];
    if IsHeaderLine(line) then HeaderLine
    else if IsStopLine(line) then StopLine
    else
      var l := Strip(line);
      if l == [] then OtherLine
      else
        match CodePair(l)
        case None => OtherLine
        case Some(e) => ItemAt(lines, i, Strip(l[e..]))
  }

  /** The step at line `k`, as a function of `k`. */
  function StepFn(lines: seq<string>): nat --> TextStep {
    (k: nat) requires k < |lines| => LineStep(lines, k)
  }

  /** The step at every line. */
  function StepsOf(lines: seq<string>): (steps: seq<TextStep>)
    ensures |steps| == |lines|
  {
    Tabulate(StepFn(lines), |lines|)
  }

  /** The items the walk takes from line `i` on, `started` once the header line has been seen. */
  function TextWalk(steps: seq<TextStep>, i: nat, started: bool): seq<ItemGroups>
    decreases |steps| - i
  {
    if i >= |steps| then []
    else
      match steps[i]
      case HeaderLine => TextWalk(steps, i + 1, true)
      case StopLine => if started then [] else TextWalk(steps, i + 1, false)
      case OtherLine => TextWalk(steps, i + 1, started)
      case ItemLine(g, extra) => if started then [g] + TextWalk(steps, i + 1 + extra, true) else TextWalk(steps, i + 1, false)
  }

  /** The record of text item number `n`, with the European amounts rewritten and a synthetic part number. */
  function TextRecord(ctx: Context, n: nat, g: ItemGroups): OrderRecord {
    OrderRecord(ctx.po, MagicFxPn(ctx.po, n), Some(n), Some(MagicFxPoLine(ctx.po, n)), g.description,
      ParseDecimal(EuToUs(g.amounts.qty)), ParseDecimal("€" + EuToUs(g.amounts.netPrice)),
      ParseDecimal("€" + EuToUs(g.amounts.totalPrice)), ctx.parseDate(g.date), ctx.poDate, None)
  }

  /**
   * The records of the text items, numbered from 1. The last record is added
   * by `TextRecordsLast`, so that unfolding one of the two never builds a
   * record unless a proof asks for it.
   */
  function TextRecords(ctx: Context, gs: seq<ItemGroups>): (rs: seq<OrderRecord>)
    ensures |rs| == |gs|
    decreases |gs|, 1
  {
    if gs == [] then [] else TextRecordsLast(ctx, gs)
  }

  function TextRecordsLast(ctx: Context, gs: seq<ItemGroups>): (rs: seq<OrderRecord>)
    requires gs != []
    ensures |rs| == |gs|
    decreases |gs|, 0
  {
    TextRecords(ctx, gs[..|gs| - 1]) + [TextRecord(ctx, |gs|, gs[|gs| - 1])]
  }

  /** The items of the text path on the lines of a page. */
  function TextItems(lines: seq<string>): seq<ItemGroups> {
    TextWalk(StepsOf(lines), 0, false)
  }

  /** The records of the text path. */
  function TextData(ctx: Context, text: string): seq<OrderRecord> {
    TextRecords(ctx, TextItems(SplitOn(text, '\n')))
  }

  /** True when the page's tables are used: there is a first table and it has rows. */
  predicate UsesTable(page: Page) {
    page.tables != [] && page.tables[0] != []
  }

  /** The records of a MagicFX order: none without pages, else read from the first page. */
  function MagicFxData(pages: seq<Page>, parseDate: DateParser): (data: seq<OrderRecord>)
    ensures pages == [] ==> data == []
  {
    if pages == [] then []
    else
      var ctx := ContextOf(pages[0].text, parseDate);
      if UsesTable(pages[0]) then TableData(ctx, pages[0].tables[0]) else TextData(ctx, pages[0].text)
  }

  // ---------------------------------------------------------------------------
  // The extractor

  /** The `for i, row in enumerate(table)` search for the header row. */
  method FindHeaderRow(table: Table) returns (h: int)
    ensures h == -1 <==> HeaderFrom(table, 0).None?
    ensures h != -1 ==> HeaderFrom(table, 0) == Some(h)
  {
    h := -1;
    var i := 0;
    while i < |table|
      invariant 0 <= i <= |table|
      invariant HeaderFrom(table, 0) == HeaderFrom(table, i)
    {
      if IsHeaderRow(table[i]) {
        h := i;
        return;
      }
      i := i + 1;
    }
  }

  /** The checks of one table row: its cleaned fields, or None when the row makes no record. */
  method ReadRow(rows: seq<Row>, i: nat) returns (fields: Option<RowFields>)
    requires i < |rows|
    ensures fields == RowOptions(rows)[i]
  {
    TabulateAt(RowFn(rows), |rows|, i);
    var row := rows[i];
    if Blank(row) || IsSkipText(RowText(row)) {
      return None;
    }
    var description := DescriptionCell(row);
    var date := Strip(Cell(row, 4));
    var qty := ScrubAsWritten(Strip(Cell(row, 5)));
    var netPrice := PriceCell(Cell(row, 6));
    var totalPrice := PriceCell(Cell(row, 7));
    if description == [] && qty == [] {
      return None;
    }
    return Some(RowFields(description, date, qty, netPrice, totalPrice));
  }

  /** The table path: the rows after the header, numbered as they make records. */
  method ReadTable(ctx: Context, table: Table) returns (data: seq<OrderRecord>)
    ensures data == TableData(ctx, table)
  {
    var h := FindHeaderRow(table);
    if h == -1 {
      return [];
    }
    data := ReadRows(ctx, table[h + 1..]);
  }

  /** The `for i in range(start_index, len(table))` loop over the data rows. */
  method ReadRows(ctx: Context, rows: seq<Row>) returns (data: seq<OrderRecord>)
    ensures data == TableRecords(ctx, RowItems(rows))
  {
    ghost var options := RowOptions(rows);
    data := [];
    var lineNumber := 1;
    var i: nat := 0;
    while i < |rows|
      invariant i <= |rows|
      invariant data == TableRecords(ctx, Somes(options[..i]))
      invariant lineNumber == |data| + 1
    {
      var fields := ReadRow(rows, i);
      if fields.Some? {
        SomesPrefixKept(options, i);
        data := AppendTableRecord(ctx, Somes(options[..i]), data, lineNumber, fields.value);
        lineNumber := lineNumber + 1;
      } else {
        SomesPrefixSkipped(options, i);
      }
      i := i + 1;
    }
    assert options[..i] == options;
  }

  /** `data.append({...})` for the next table item, numbered `n`. */
  method AppendTableRecord(ctx: Context, ghost fs: seq<RowFields>, data: seq<OrderRecord>, n: nat, f: RowFields)
    returns (r: seq<OrderRecord>)
    requires data == TableRecords(ctx, fs) && n == |fs| + 1
    ensures r == TableRecords(ctx, fs + [f])
  {
    TableRecordsSnoc(ctx, fs, f);
    r := data + [TableRecord(ctx, n, f)];
  }

  lemma TableRecordsSnoc(ctx: Context, fs: seq<RowFields>, f: RowFields)
    ensures TableRecords(ctx, fs + [f]) == TableRecords(ctx, fs) + [TableRecord(ctx, |fs| + 1, f)]
  {
    assert (fs + [f])[..|fs|] == fs;
  }

  /** The inner `while next_i < len(lines)` loop gathering a multi-line item. */
  method CollectItem(lines: seq<string>, i: nat, dataPart: string) returns (r: Option<Collected>)
    ensures r == MultiFrom(lines, i + 1, [dataPart])
  {
    var parts := [dataPart];
    var j := i + 1;
    while j < |lines|
      invariant i + 1 <= j
      invariant MultiFrom(lines, j, parts) == MultiFrom(lines, i + 1, [dataPart])
      decreases |lines| - j
    {
      var next := Strip(lines[j]);
      var dateLine := DateLine(next);
      if dateLine.Some? {
        var amounts := QtyPrice(dateLine.value.1);
        if amounts.Some? {
          return Some(Collected(ItemGroups(MultiDescription(parts), dateLine.value.0, amounts.value), j));
        }
        parts := parts + [next];
      } else if CodePair(next).Some? || EndsBlock(next) {
        return None;
      } else if next != [] {
        parts := parts + [next];
      }
      j := j + 1;
    }
    return None;
  }

  /** The step at line `i`: the checks of one round of the text walk. */
  method DecideStep(lines: seq<string>, i: nat) returns (step: TextStep)
    requires i < |lines|
    ensures step == StepsOf(lines)[i]
    ensures step.ItemLine? ==> i + step.extra < |lines|
  {
    TabulateAt(StepFn(lines), |lines|, i);
    var line := lines[i];
    if IsHeaderLine(line) {
      return HeaderLine;
    }
    if IsStopLine(line) {
      return StopLine;
    }
    var l := Strip(line);
    if l == [] {
      return OtherLine;
    }
    var codes := CodePair(l);
    if codes.None? {
      return OtherLine;
    }
    var dataPart := Strip(l[codes.value..]);
    var single := SingleLine(dataPart);
    if single.Some? {
      if i + 1 < |lines| && Continues(Strip(lines[i + 1])) {
        step := ItemLine(single.value.(description := single.value.description + " " + Strip(lines[i + 1])), 1);
      } else {
        step := ItemLine(single.value, 0);
      }
    } else {
      var c := CollectItem(lines, i, dataPart);
      step := if c.Some? then ItemLine(c.value.groups, c.value.last - i) else OtherLine;
    }
  }

  /** The text path: the `while i < len(lines)` walk with its `data_started` flag and line counter. */
  method ReadText(ctx: Context, text: string) returns (data: seq<OrderRecord>)
    ensures data == TextData(ctx, text)
  {
    var lines := SplitOn(text, '\n');
    data := ReadLines(ctx, lines);
  }

  /** The walk over the lines of the page's text. */
  method ReadLines(ctx: Context, lines: seq<string>) returns (data: seq<OrderRecord>)
    ensures data == TextRecords(ctx, TextItems(lines))
  {
    ghost var whole := TextItems(lines);
    ghost var items: seq<ItemGroups> := [];
    data := [];
    var lineNumber: nat := 1;
    var started := false;
    var i: nat := 0;
    var stop := false;
    while i < |lines| && !stop
      invariant i <= |lines|
      invariant !stop ==> WalkedTo(StepsOf(lines), whole, items, i, started)
      invariant stop ==> items == whole
      invariant data == TextRecords(ctx, items) && lineNumber == |items| + 1
      decreases |lines| - i, !stop
    {
      var taken;
      taken, i, started, stop := TextRound(lines, whole, items, i, started);
      if taken.Some? {
        TextRecordsSnoc(ctx, items, taken.value);
        data := data + [TextRecord(ctx, lineNumber, taken.value)];
        items := items + [taken.value];
        lineNumber := lineNumber + 1;
      }
    }
    if !stop {
      TextWalkEnd(StepsOf(lines), whole, items, i, started);
    }
  }

  /** One round of the walk at line `i`: the header, the stop line, an item taken, or a line passed over. */
  method TextRound(lines: seq<string>, ghost whole: seq<ItemGroups>, ghost items: seq<ItemGroups>, i: nat, started: bool)
    returns (taken: Option<ItemGroups>, i': nat, started': bool, stop: bool)
    requires i < |lines| && WalkedTo(StepsOf(lines), whole, items, i, started)
    ensures i' <= |lines|
    ensures stop ==> taken.None? && items == whole && i' == i
    ensures !stop ==> i < i'
    ensures !stop && taken.None? ==> WalkedTo(StepsOf(lines), whole, items, i', started')
    ensures taken.Some? ==> WalkedTo(StepsOf(lines), whole, items + [taken.value], i', started')
  {
    ghost var steps := StepsOf(lines);
    var step := DecideStep(lines, i);
    taken, i', started', stop := None, i + 1, started, false;
    if step.HeaderLine? {
      TextWalkHeader(steps, whole, items, i, started);
      started' := true;
    } else if step.StopLine? && started {
      TextWalkStop(steps, whole, items, i);
      i', stop := i, true;
    } else if step.ItemLine? && started {
      TakeItem(steps, whole, items, i);
      taken := Some(step.groups);
      i' := i + 1 + step.extra;
    } else {
      TextWalkPass(steps, whole, items, i, started);
    }
  }

  /** The walk invariant: the items taken before line `i` and the walk from `i` on make the whole walk. */
  ghost predicate WalkedTo(steps: seq<TextStep>, whole: seq<ItemGroups>, items: seq<ItemGroups>, i: nat, started: bool) {
    i <= |steps| && items + TextWalk(steps, i, started) == whole
  }

  lemma TextWalkHeader(steps: seq<TextStep>, whole: seq<ItemGroups>, items: seq<ItemGroups>, i: nat, started: bool)
    requires WalkedTo(steps, whole, items, i, started)
    requires i < |steps| && steps[i].HeaderLine?
    ensures WalkedTo(steps, whole, items, i + 1, true)
  {
  }

  lemma TextWalkStop(steps: seq<TextStep>, whole: seq<ItemGroups>, items: seq<ItemGroups>, i: nat)
    requires WalkedTo(steps, whole, items, i, true)
    requires i < |steps| && steps[i].StopLine?
    ensures items == whole
  {
    assert TextWalk(steps, i, true) == [];
  }

  lemma TextWalkPass(steps: seq<TextStep>, whole: seq<ItemGroups>, items: seq<ItemGroups>, i: nat, started: bool)
    requires WalkedTo(steps, whole, items, i, started)
    requires i < |steps| && !steps[i].HeaderLine?
    requires steps[i].OtherLine? || !started
    ensures WalkedTo(steps, whole, items, i + 1, started)
  {
  }

  lemma TextWalkEnd(steps: seq<TextStep>, whole: seq<ItemGroups>, items: seq<ItemGroups>, i: nat, started: bool)
    requires WalkedTo(steps, whole, items, i, started)
    requires i >= |steps|
    ensures items == whole
  {
    assert TextWalk(steps, i, started) == [];
  }

  /** One item taken by the walk: the items gathered so far grow by it. */
  lemma TakeItem(steps: seq<TextStep>, whole: seq<ItemGroups>, items: seq<ItemGroups>, i: nat)
    requires WalkedTo(steps, whole, items, i, true)
    requires i < |steps| && steps[i].ItemLine? && i + 1 + steps[i].extra <= |steps|
    ensures WalkedTo(steps, whole, items + [steps[i].groups], i + 1 + steps[i].extra, true)
  {
    var rest := TextWalk(steps, i + 1 + steps[i].extra, true);
    assert TextWalk(steps, i, true) == [steps[i].groups] + rest;
    assert items + ([steps[i].groups] + rest) == (items + [steps[i].groups]) + rest;
  }

  lemma TextRecordsSnoc(ctx: Context, gs: seq<ItemGroups>, g: ItemGroups)
    ensures TextRecords(ctx, gs + [g]) == TextRecords(ctx, gs) + [TextRecord(ctx, |gs| + 1, g)]
  {
    assert (gs + [g])[..|gs|] == gs;
    assert TextRecords(ctx, gs + [g]) == TextRecordsLast(ctx, gs + [g]);
  }

  /** `extract_magic_fx_data` on the pages already read from the PDF. */
  method ExtractMagicFx(pages: seq<Page>, parseDate: DateParser) returns (data: seq<OrderRecord>)
    ensures data == MagicFxData(pages, parseDate)
  {
    if pages == [] {
      return [];
    }
    var ctx := ContextOf(pages[0].text, parseDate);
    if UsesTable(pages[0]) {
      data := ReadTable(ctx, pages[0].tables[0]);
    } else {
      data := ReadText(ctx, pages[0].text);
    }
  }
}
