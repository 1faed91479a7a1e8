/**
 * One page of a Wefabricate purchase order: the header fields read from the
 * text of the first page, and the classification of the rows of the page's
 * table into noise, "Schedule Lines:" markers and data rows
 * (`extract_wefaricate_data`, first pass).
 */
module WefabricateRows {
  import opened Wrappers
  import opened Text
  import opened Digits
  import opened Numeric
  import opened Keys
  import Sequences
  import opened Dates
  import opened Tables

  /** A header row: some cell mentions "Item" or "ID". */
  predicate IsHeaderRow(row: Row) {
    exists k :: 0 <= k < |row| && (Contains(row[k], "Item") || Contains(row[k], "ID"))
  }

  /** Rows of page furniture the extractor skips. */
  predicate Boilerplate(text: string) {
    Contains(text, "Page:") || Contains(text, "We Fabricate") || Contains(text, "Incoterms:")
  }

  const ScheduleMarker: string := "Schedule Lines:"

  /** The first header row at or after `j`. */
  function HeaderFrom(t: Table, j: nat): (r: Option<nat>)
    ensures r.Some? ==> j <= r.value < |t| && IsHeaderRow(t[r.value])
    ensures r.Some? ==> forall k :: j <= k < r.value ==> !IsHeaderRow(t[k])
    ensures r.None? ==> forall k :: j <= k < |t| ==> !IsHeaderRow(t[k])
    decreases |t| - j
  {
    if j >= |t| then None
    else if IsHeaderRow(t[j]) then Some(j)
    else HeaderFrom(t, j + 1)
  }

  /** Where the data rows begin: after the header row, or at the top when there is none. */
  function StartIndex(t: Table): (s: nat)
    ensures s <= |t|
  {
    match HeaderFrom(t, 0)
    case Some(h) => h + 1
    case None => 0
  }

  /** The length of the match of `[A-Za-z]+\s*\d{1,2},\s*\d{4}` at the start of `s` (`re.match`). */
  function MonthDayYearAt(s: string): (r: Option<nat>)
    ensures r.Some? ==> 0 < r.value <= |s|
  {
    var l := LetterRun(s);
    if l == 0 then None
    else
      var p := l + SpaceRun(s[l..]);
      var d := DigitRun(s[p..]);
      if d < 1 || d > 2 || p + d >= |s| || s[p + d] != ',' then None
      else
        var q := p + d + 1 + SpaceRun(s[p + d + 1..]);
        if q + 4 <= |s| && AllDigits(s[q..q + 4]) then Some(q + 4) else None
  }

  /** `re.match(r'^\d{4}-\d{4}-\d{4}$', s)` on a stripped cell. */
  predicate IdPattern(s: string) {
    |s| == 14 && s[4] == '-' && s[9] == '-' && AllDigits(s[..4]) && AllDigits(s[5..9]) && AllDigits(s[10..])
  }

  predicate IsDigitOrComma(c: char) { IsDigit(c) || c == ',' }

  /** The position of the leftmost digit or comma in `s`. */
  function FirstDigitOrComma(s: string): (r: Option<nat>)
    ensures r.Some? ==> r.value < |s| && IsDigitOrComma(s[r.value])
    ensures r.Some? ==> forall i :: 0 <= i < r.value ==> !IsDigitOrComma(s[i])
    ensures r.None? ==> forall i :: 0 <= i < |s| ==> !IsDigitOrComma(s[i])
  {
    if s == [] then None
    else if IsDigitOrComma(s[0]) then Some(0)
    else
      match FirstDigitOrComma(s[1..])
      case None => None
      case Some(k) => Some(k + 1)
  }

  /** The length of the longest prefix of `s` made of digits and commas. */
  function DigitCommaRun(s: string): (k: nat)
    ensures k <= |s| && forall i :: 0 <= i < k ==> IsDigitOrComma(s[i])
    ensures k < |s| ==> !IsDigitOrComma(s[k])
  {
    if s != [] && IsDigitOrComma(s[0]) then 1 + DigitCommaRun(s[1..]) else 0
  }

  /**
   * The quantity of a data row: the first run of `re.search(r'([\d,]+)(?:\.\d+)?', cell)`
   * with its commas removed, "" when the cell has neither a digit nor a comma.
   */
  function QuantityOf(cell: string): (q: string)
    ensures AllDigits(q)
  {
    match FirstDigitOrComma(cell)
    case None => ""
    case Some(k) =>
      var run := cell[k..][..DigitCommaRun(cell[k..])];
      var q := Without(run, {','});
      assert forall i :: 0 <= i < |run| ==> IsDigit(run[i]) || run[i] == ',';
      OnlyDigitsLeft(run);
      q
  }

  lemma OnlyDigitsLeft(run: string)
    requires forall i :: 0 <= i < |run| ==> IsDigit(run[i]) || run[i] == ','
    ensures AllDigits(Without(run, {','}))
  {
    if run != [] {
      OnlyDigitsLeft(run[1..]);
      var rest := Without(run[1..], {','});
      if run[0] != ',' {
        assert Without(run, {','}) == [run[0]] + rest;
      }
    }
  }

  /** A quantity found in the cell is a whole number, and `parse_decimal` reads it as one. */
  lemma QuantityParses(cell: string)
    requires QuantityOf(cell) != []
    ensures ParseDecimal(QuantityOf(cell)) == Some(NatOf(QuantityOf(cell)) as real)
  {
    var q := QuantityOf(cell);
    WholeNumeral(q);
    ParseDecimalOfNumeral(q);
  }

  /** A cell without any digit yields no quantity, and `parse_decimal` gives None. */
  lemma QuantityWithoutDigits(cell: string)
    requires NoDigit(cell)
    ensures ParseDecimal(QuantityOf(cell)) == None
  {
    var q := QuantityOf(cell);
    if q != [] {
      var k := FirstDigitOrComma(cell).value;
      var run := cell[k..][..DigitCommaRun(cell[k..])];
      assert forall i :: 0 <= i < |run| ==> run[i] == ',' by {
        forall i | 0 <= i < |run| ensures run[i] == ',' {
          assert run[i] == cell[k + i];
        }
      }
      WithoutAllDropped(run, {','});
    }
  }

  /**
   * The net value of a data row: a cell holding '€', "EUR", a digit or a comma is cleaned
   * by `clean_currency_value` after "EUR" becomes '€'; any other cell is kept as it is.
   */
  function NetValueOf(raw: string): string {
    // The source's fallback for a cell with a number but no currency mark sits behind a
    // test that has already failed, so it is never taken.
    if raw != [] && ('€' in raw || Contains(raw, "EUR") || FirstDigitOrComma(raw).Some?) then
      CleanCurrencyValue(ReplaceAll(raw, "EUR", "€"))
    else raw
  }

  /** A net-value cell with a digit gives the value of the first number after the clean-up. */
  lemma NetValueParses(raw: string)
    requires !NoDigit(raw)
    ensures !NoDigit(ReplaceAll(raw, "EUR", "€"))
    ensures FirstNumeral(Without(ReplaceAll(raw, "EUR", "€"), {','})).Some?
    ensures ParseDecimal(NetValueOf(raw)) == Some(NumeralValue(FirstNumeral(Without(ReplaceAll(raw, "EUR", "€"), {','})).value))
  {
    var i :| 0 <= i < |raw| && IsDigit(raw[i]);
    assert FirstDigitOrComma(raw).Some?;
    ReplaceKeepsDigits(raw);
    CleanCurrencyValueParses(ReplaceAll(raw, "EUR", "€"));
  }

  /** A net-value cell without a digit parses to nothing. */
  lemma NetValueWithoutDigits(raw: string)
    requires NoDigit(raw)
    ensures ParseDecimal(NetValueOf(raw)) == None
  {
    ReplaceKeepsDigits(raw);
    var c := ReplaceAll(raw, "EUR", "€");
    if raw != [] && ('€' in raw || Contains(raw, "EUR") || FirstDigitOrComma(raw).Some?) {
      assert NetValueOf(raw) == c;
      NoDigitNoParse(c);
    } else {
      NoDigitNoParse(raw);
    }
  }

  /** Replacing "EUR" with '€' neither adds nor removes digits. */
  lemma {:induction false} ReplaceKeepsDigits(s: string)
    ensures NoDigit(ReplaceAll(s, "EUR", "€")) <==> NoDigit(s)
    decreases |s|
  {
    if StartsWith(s, "EUR") {
      ReplaceKeepsDigits(s[3..]);
      NoDigitAppend("€", ReplaceAll(s[3..], "EUR", "€"));
      assert s == s[..3] + s[3..];
      NoDigitAppend(s[..3], s[3..]);
    } else if s != [] {
      ReplaceKeepsDigits(s[1..]);
      NoDigitAppend([s[0]], ReplaceAll(s[1..], "EUR", "€"));
      assert s == [s[0]] + s[1..];
      NoDigitAppend([s[0]], s[1..]);
    }
  }

  /** A data row as the first pass stores it (`data_row_info`). */
  datatype DataRow = DataRow(
    rowIndex: nat,
    item: string,
    itemNoZero: string,
    idPart: string,
    description: string,
    quantity: string,
    netPrice: EurPrice,
    netValue: string)

  /** A resolved "Schedule Lines:" marker: its row, the date row after it, and that row's date. */
  datatype ScheduleLine = ScheduleLine(rowIndex: nat, dateRowIndex: nat, reqDate: Option<Date>, dateCell: string, quantity: string)

  /** The fields the extractor reads from a row that is not noise and not a marker. */
  function DataRowOf(row: Row, i: nat): (d: DataRow)
    ensures d.rowIndex == i
    ensures d.item == [] || IsDigitString(d.item)
  {
    var cell0 := Strip(Cell(row, 0));
    var item := if IsDigitString(cell0) then cell0 else "";
    DataRow(i, item, RemoveLeadingZeros(item), Strip(Cell(row, 1)), Strip(Cell(row, 2)),
      QuantityOf(Strip(Cell(row, 3))), WfParseEurPrice(Strip(Cell(row, 4))), NetValueOf(Strip(Cell(row, 5))))
  }

  /** The date row right after a marker on the same table, when its date cell looks like "Oct 7, 2025". */
  function ScheduleAt(t: Table, i: nat, parseDate: DateParser): (r: Option<ScheduleLine>)
    requires i < |t|
    ensures r.Some? ==> r.value.rowIndex == i && r.value.dateRowIndex == i + 1 < |t|
  {
    if i + 1 < |t| && |t[i + 1]| > 4 then
      var quantity := Strip(t[i + 1][3]);
      var date := Strip(t[i + 1][4]);
      if MonthDayYearAt(date).Some? then Some(ScheduleLine(i, NextRow(i), parseDate(date), date, quantity)) else None
    else None
  }

  /** The index of the row after row `i`, where a marker's date sits. */
  function NextRow(i: nat): nat { i + 1 }

  datatype RowClass = Noise | Marker(schedule: Option<ScheduleLine>) | Data(row: DataRow) | Rejected

  /** What the first pass makes of row `i` of a table. */
  function Classify(t: Table, i: nat, parseDate: DateParser): RowClass
    requires i < |t|
  {
    var row := t[i];
    if Blank(row) || Boilerplate(RowText(row)) then Noise
    else if Contains(RowText(row), ScheduleMarker) then Marker(ScheduleAt(t, i, parseDate))
    else
      var d := DataRowOf(row, i);
      if d.item != [] && (d.idPart == [] || IdPattern(d.idPart)) then Data(d) else Rejected
  }

  /** The condition under which a table row becomes a data row. */
  predicate IsDataRow(row: Row) {
    && !Blank(row)
    && !Boilerplate(RowText(row))
    && !Contains(RowText(row), ScheduleMarker)
    && IsDigitString(Strip(Cell(row, 0)))
    && (Strip(Cell(row, 1)) == [] || IdPattern(Strip(Cell(row, 1))))
  }

  /** A row is classified as data exactly when it meets the data-row condition. */
  lemma ClassifyData(t: Table, i: nat, parseDate: DateParser)
    requires i < |t|
    ensures Classify(t, i, parseDate).Data? <==> IsDataRow(t[i])
    ensures Classify(t, i, parseDate).Data? ==> Classify(t, i, parseDate).row == DataRowOf(t[i], i)
  {
  }

  /** What the first pass makes of rows `lo` to `|t| - 1`, row by row. */
  function ClassesFrom(t: Table, lo: nat, parseDate: DateParser): (cs: seq<RowClass>)
    requires lo <= |t|
    ensures |cs| == |t| - lo
    ensures forall k :: 0 <= k < |cs| ==> cs[k] == Classify(t, lo + k, parseDate)
  {
    seq(|t| - lo, k requires 0 <= k < |t| - lo => Classify(t, lo + k, parseDate))
  }

  /** The data rows among a run of classified rows, in order. */
  function DataIn(cs: seq<RowClass>): seq<DataRow> {
    if cs == [] then []
    else
      var prefix := DataIn(cs[..|cs| - 1]);
      if cs[|cs| - 1].Data? then prefix + [cs[|cs| - 1].row] else prefix
  }

  /** The resolved markers among a run of classified rows, in order. */
  function SchedulesInClasses(cs: seq<RowClass>): seq<ScheduleLine> {
    if cs == [] then []
    else
      var prefix := SchedulesInClasses(cs[..|cs| - 1]);
      var c := cs[|cs| - 1];
      if c.Marker? && c.schedule.Some? then prefix + [c.schedule.value] else prefix
  }

  /** The data rows of a table, after its header row. */
  function DataRowsOf(t: Table, parseDate: DateParser): seq<DataRow> {
    DataIn(ClassesFrom(t, StartIndex(t), parseDate))
  }

  /** The resolved markers of a table, after its header row. */
  function SchedulesOf(t: Table, parseDate: DateParser): seq<ScheduleLine> {
    SchedulesInClasses(ClassesFrom(t, StartIndex(t), parseDate))
  }

  /** Appending a class to a run: a data class adds its row. */
  lemma DataInSnocData(cs: seq<RowClass>, c: RowClass)
    requires c.Data?
    ensures DataIn(cs + [c]) == DataIn(cs) + [c.row]
  {
    assert (cs + [c])[..|cs|] == cs;
  }

  /** Appending a class to a run: any other class adds nothing. */
  lemma DataInSnocOther(cs: seq<RowClass>, c: RowClass)
    requires !c.Data?
    ensures DataIn(cs + [c]) == DataIn(cs)
  {
    assert (cs + [c])[..|cs|] == cs;
  }

  /** Appending a class to a run: a resolved marker adds its schedule line. */
  lemma SchedulesSnocMarker(cs: seq<RowClass>, c: RowClass)
    requires c.Marker? && c.schedule.Some?
    ensures SchedulesInClasses(cs + [c]) == SchedulesInClasses(cs) + [c.schedule.value]
  {
    assert (cs + [c])[..|cs|] == cs;
  }

  /** Appending a class to a run: any other class adds nothing. */
  lemma SchedulesSnocOther(cs: seq<RowClass>, c: RowClass)
    requires !(c.Marker? && c.schedule.Some?)
    ensures SchedulesInClasses(cs + [c]) == SchedulesInClasses(cs)
  {
    assert (cs + [c])[..|cs|] == cs;
  }

  /** The classes of rows `lo` to `i` are those of rows `lo` to `i - 1` followed by row `i`'s. */
  lemma ClassesFromSnoc(t: Table, lo: nat, i: nat, parseDate: DateParser)
    requires lo <= i < |t|
    ensures ClassesFrom(t, lo, parseDate)[..i + 1 - lo] == ClassesFrom(t, lo, parseDate)[..i - lo] + [Classify(t, i, parseDate)]
  {
    var cs := ClassesFrom(t, lo, parseDate);
    Sequences.PrefixSnoc(cs, i - lo);
    assert cs[i - lo] == Classify(t, i, parseDate);
  }

  /** The header search of `ScanTable`: the first header row, as `HeaderFrom` gives it. */
  method FindHeader(t: Table) returns (start: nat)
    ensures start == StartIndex(t)
  {
    var i := 0;
    while i < |t|
      invariant 0 <= i <= |t|
      invariant HeaderFrom(t, 0) == HeaderFrom(t, i)
    {
      if IsHeaderRow(t[i]) {
        return i + 1;
      }
      i := i + 1;
    }
    return 0;
  }

  /**
   * The first pass over one table: find the header row, then classify every row after it,
   * collecting data rows and resolved markers.
   */
  method ScanTable(t: Table, parseDate: DateParser) returns (rows: seq<DataRow>, schedules: seq<ScheduleLine>)
    ensures rows == DataRowsOf(t, parseDate)
    ensures schedules == SchedulesOf(t, parseDate)
  {
    var start := FindHeader(t);
    ghost var cs := ClassesFrom(t, start, parseDate);
    rows, schedules := [], [];
    var i := start;
    while i < |t|
      invariant start <= i <= |t|
      invariant rows == DataIn(cs[..i - start])
      invariant schedules == SchedulesInClasses(cs[..i - start])
    {
      var c := Classify(t, i, parseDate);
      ClassesFromSnoc(t, start, i, parseDate);
      if c.Data? {
        DataInSnocData(cs[..i - start], c);
        rows := rows + [c.row];
      } else {
        DataInSnocOther(cs[..i - start], c);
      }
      if c.Marker? && c.schedule.Some? {
        SchedulesSnocMarker(cs[..i - start], c);
        schedules := schedules + [c.schedule.value];
      } else {
        SchedulesSnocOther(cs[..i - start], c);
      }
      i := i + 1;
    }
    assert cs[..i - start] == cs;
  }

  /** Each data row of a run comes from a data class of the run; they come in the run's order. */
  lemma {:induction false} DataInSound(cs: seq<RowClass>)
    ensures forall k :: 0 <= k < |DataIn(cs)| ==> exists j :: 0 <= j < |cs| && cs[j] == Data(DataIn(cs)[k])
    decreases |cs|
  {
    if cs != [] {
      var init := cs[..|cs| - 1];
      DataInSound(init);
      forall k | 0 <= k < |DataIn(cs)| ensures exists j :: 0 <= j < |cs| && cs[j] == Data(DataIn(cs)[k]) {
        if k < |DataIn(init)| {
          var j :| 0 <= j < |init| && init[j] == Data(DataIn(init)[k]);
          assert cs[j] == init[j];
        } else {
          assert cs[|cs| - 1] == Data(DataIn(cs)[k]);
        }
      }
    } else {
      assert DataIn(cs) == [];
    }
  }

  /** Every data class of a run contributes its row. */
  lemma {:induction false} DataInComplete(cs: seq<RowClass>, j: nat)
    requires j < |cs| && cs[j].Data?
    ensures cs[j].row in DataIn(cs)
    decreases |cs|
  {
    if j < |cs| - 1 {
      var init := cs[..|cs| - 1];
      assert init[j] == cs[j];
      DataInComplete(init, j);
    }
  }

  /** Rows recorded at their place in the run come out in increasing order, within the run's range. */
  lemma {:induction false} DataInOrdered(cs: seq<RowClass>, base: nat)
    requires forall j :: 0 <= j < |cs| && cs[j].Data? ==> cs[j].row.rowIndex == base + j
    ensures forall k :: 0 <= k < |DataIn(cs)| ==> base <= DataIn(cs)[k].rowIndex < base + |cs|
    ensures forall k, m :: 0 <= k < m < |DataIn(cs)| ==> DataIn(cs)[k].rowIndex < DataIn(cs)[m].rowIndex
    decreases |cs|
  {
    if cs != [] {
      var init := cs[..|cs| - 1];
      assert forall j :: 0 <= j < |init| ==> init[j] == cs[j];
      DataInOrdered(init, base);
    }
  }

  /** Each resolved marker of a run comes from a marker class of the run. */
  lemma {:induction false} SchedulesInSound(cs: seq<RowClass>)
    ensures forall k :: 0 <= k < |SchedulesInClasses(cs)| ==>
      exists j :: 0 <= j < |cs| && cs[j] == Marker(Some(SchedulesInClasses(cs)[k]))
    decreases |cs|
  {
    if cs != [] {
      var init := cs[..|cs| - 1];
      SchedulesInSound(init);
      var ss := SchedulesInClasses(cs);
      forall k | 0 <= k < |ss| ensures exists j :: 0 <= j < |cs| && cs[j] == Marker(Some(ss[k])) {
        if k < |SchedulesInClasses(init)| {
          var j :| 0 <= j < |init| && init[j] == Marker(Some(SchedulesInClasses(init)[k]));
          assert cs[j] == init[j];
        } else {
          assert cs[|cs| - 1] == Marker(Some(ss[k]));
        }
      }
    } else {
      assert SchedulesInClasses(cs) == [];
    }
  }

  /** A data class in the run of a table is a row meeting the data-row condition, read by `DataRowOf`. */
  lemma DataClassAt(t: Table, lo: nat, parseDate: DateParser, j: nat)
    requires lo <= |t| && j < |t| - lo && ClassesFrom(t, lo, parseDate)[j].Data?
    ensures IsDataRow(t[lo + j]) && ClassesFrom(t, lo, parseDate)[j].row == DataRowOf(t[lo + j], lo + j)
  {
    ClassifyData(t, lo + j, parseDate);
  }

  /** Every data row of a table comes from a row after the header meeting the data-row condition. */
  lemma DataRowsSound(t: Table, parseDate: DateParser)
    ensures forall d :: d in DataRowsOf(t, parseDate) ==>
      StartIndex(t) <= d.rowIndex < |t| && IsDataRow(t[d.rowIndex]) && d == DataRowOf(t[d.rowIndex], d.rowIndex)
  {
    var s := StartIndex(t);
    var cs := ClassesFrom(t, s, parseDate);
    var rs := DataRowsOf(t, parseDate);
    DataInSound(cs);
    forall d | d in rs
      ensures s <= d.rowIndex < |t| && IsDataRow(t[d.rowIndex]) && d == DataRowOf(t[d.rowIndex], d.rowIndex)
    {
      var k :| 0 <= k < |rs| && rs[k] == d;
      var j :| 0 <= j < |cs| && cs[j] == Data(d);
      DataClassAt(t, s, parseDate, j);
    }
  }

  /** Every row after the header meeting the data-row condition gives a data row. */
  lemma DataRowsComplete(t: Table, parseDate: DateParser, i: nat)
    requires StartIndex(t) <= i < |t| && IsDataRow(t[i])
    ensures DataRowOf(t[i], i) in DataRowsOf(t, parseDate)
  {
    var s := StartIndex(t);
    var cs := ClassesFrom(t, s, parseDate);
    ClassifyData(t, i, parseDate);
    assert cs[i - s] == Data(DataRowOf(t[i], i));
    DataInComplete(cs, i - s);
  }

  /** The data rows of a table come in table order. */
  lemma DataRowsOrdered(t: Table, parseDate: DateParser)
    ensures forall k, m :: 0 <= k < m < |DataRowsOf(t, parseDate)| ==>
      DataRowsOf(t, parseDate)[k].rowIndex < DataRowsOf(t, parseDate)[m].rowIndex
  {
    var s := StartIndex(t);
    var cs := ClassesFrom(t, s, parseDate);
    forall j | 0 <= j < |cs| && cs[j].Data? ensures cs[j].row.rowIndex == s + j {
      DataClassAt(t, s, parseDate, j);
    }
    DataInOrdered(cs, s);
  }

  /** A resolved marker: a marker row whose next row, on the same table, carries the date. */
  predicate ResolvedMarker(t: Table, s: ScheduleLine, parseDate: DateParser) {
    && s.rowIndex + 1 < |t|
    && s.dateRowIndex == s.rowIndex + 1
    && !Blank(t[s.rowIndex]) && !Boilerplate(RowText(t[s.rowIndex]))
    && Contains(RowText(t[s.rowIndex]), ScheduleMarker)
    && |t[s.dateRowIndex]| > 4
    && s.dateCell == Strip(t[s.dateRowIndex][4])
    && MonthDayYearAt(s.dateCell).Some?
    && s.reqDate == parseDate(s.dateCell)
  }

  /** Row `i` classified as a marker passed the noise tests, mentions the marker and resolves by `ScheduleAt`. */
  lemma MarkerRow(t: Table, i: nat, parseDate: DateParser)
    requires i < |t| && Classify(t, i, parseDate).Marker?
    ensures !Blank(t[i]) && !Boilerplate(RowText(t[i])) && Contains(RowText(t[i]), ScheduleMarker)
    ensures Classify(t, i, parseDate).schedule == ScheduleAt(t, i, parseDate)
  {
  }

  /** A resolved date row is the next row, with its stripped date cell and the date parsed from it. */
  lemma ScheduleAtResolved(t: Table, i: nat, parseDate: DateParser, s: ScheduleLine)
    requires i < |t| && ScheduleAt(t, i, parseDate) == Some(s)
    ensures s.rowIndex == i && s.rowIndex + 1 < |t| && s.dateRowIndex == s.rowIndex + 1
    ensures |t[s.dateRowIndex]| > 4 && s.dateCell == Strip(t[s.dateRowIndex][4])
    ensures MonthDayYearAt(s.dateCell).Some? && s.reqDate == parseDate(s.dateCell)
  {
  }

  /** Row `i` classified as a resolved marker is one. */
  lemma ClassifyMarker(t: Table, i: nat, parseDate: DateParser, s: ScheduleLine)
    requires i < |t| && Classify(t, i, parseDate) == Marker(Some(s))
    ensures s.rowIndex == i && ResolvedMarker(t, s, parseDate)
  {
    MarkerRow(t, i, parseDate);
    ScheduleAtResolved(t, i, parseDate, s);
  }

  /** Every schedule line of a run of classes comes from one of its resolved-marker classes. */
  lemma SchedulesInResolved(t: Table, parseDate: DateParser, st: nat, cs: seq<RowClass>)
    requires forall j :: 0 <= j < |cs| && cs[j].Marker? && cs[j].schedule.Some? ==>
      st <= cs[j].schedule.value.rowIndex < |t| && ResolvedMarker(t, cs[j].schedule.value, parseDate)
    ensures forall s :: s in SchedulesInClasses(cs) ==> st <= s.rowIndex < |t| && ResolvedMarker(t, s, parseDate)
  {
    var ss := SchedulesInClasses(cs);
    SchedulesInSound(cs);
    forall s | s in ss ensures st <= s.rowIndex < |t| && ResolvedMarker(t, s, parseDate) {
      var k :| 0 <= k < |ss| && ss[k] == s;
      var j :| 0 <= j < |cs| && cs[j] == Marker(Some(s));
    }
  }

  /** Every schedule line of a table comes from a marker after the header whose date row is the next row. */
  lemma SchedulesExact(t: Table, parseDate: DateParser)
    ensures forall s :: s in SchedulesOf(t, parseDate) ==>
      StartIndex(t) <= s.rowIndex < |t| && ResolvedMarker(t, s, parseDate)
  {
    var st := StartIndex(t);
    var cs := ClassesFrom(t, st, parseDate);
    forall j | 0 <= j < |cs| && cs[j].Marker? && cs[j].schedule.Some?
      ensures st <= cs[j].schedule.value.rowIndex < |t| && ResolvedMarker(t, cs[j].schedule.value, parseDate)
    {
      ClassifyMarker(t, st + j, parseDate, cs[j].schedule.value);
    }
    SchedulesInResolved(t, parseDate, st, cs);
  }

  /** Markers recorded at their place in the run come out in increasing order. */
  lemma {:induction false} SchedulesInOrdered(cs: seq<RowClass>, base: nat)
    requires forall j :: 0 <= j < |cs| && cs[j].Marker? && cs[j].schedule.Some? ==> cs[j].schedule.value.rowIndex == base + j
    ensures forall k, m :: 0 <= k < m < |SchedulesInClasses(cs)| ==>
      SchedulesInClasses(cs)[k].rowIndex < SchedulesInClasses(cs)[m].rowIndex
    ensures forall k :: 0 <= k < |SchedulesInClasses(cs)| ==> SchedulesInClasses(cs)[k].rowIndex < base + |cs|
    decreases |cs|
  {
    if cs != [] {
      var init := cs[..|cs| - 1];
      assert forall j :: 0 <= j < |init| ==> init[j] == cs[j];
      SchedulesInOrdered(init, base);
    } else {
      assert SchedulesInClasses(cs) == [];
    }
  }

  /** The schedule lines of a table come in table order. */
  lemma SchedulesOrdered(t: Table, parseDate: DateParser)
    ensures forall k, m :: 0 <= k < m < |SchedulesOf(t, parseDate)| ==>
      SchedulesOf(t, parseDate)[k].rowIndex < SchedulesOf(t, parseDate)[m].rowIndex
  {
    var st := StartIndex(t);
    var cs := ClassesFrom(t, st, parseDate);
    forall j | 0 <= j < |cs| && cs[j].Marker? && cs[j].schedule.Some? ensures cs[j].schedule.value.rowIndex == st + j {
      ClassifyMarker(t, st + j, parseDate, cs[j].schedule.value);
    }
    SchedulesInOrdered(cs, st);
  }

  /** No row of a table gives both a data row and a schedule line. */
  lemma DataRowNotMarker(t: Table, parseDate: DateParser)
    ensures forall d, s :: d in DataRowsOf(t, parseDate) && s in SchedulesOf(t, parseDate) ==> d.rowIndex != s.rowIndex
  {
    DataRowsSound(t, parseDate);
    SchedulesExact(t, parseDate);
  }

  /** A marker in the last row of a table refers to no date: its date row would be on the next page. */
  lemma MarkerOnLastRow(t: Table, parseDate: DateParser)
    requires t != []
    ensures ScheduleAt(t, |t| - 1, parseDate) == None
  {
  }

  /** The Wefabricate document header: PO number, "Created on" date and contact person. */
  datatype Header = Header(po: string, poPlacedDate: Option<Date>, purchaser: string)

  /**
   * The PO number of the first page: the digits after the first "Purchase Order", else the
   * first run of ten digits, else "".
   */
  function WfPoNumber(text: string): (po: string)
    ensures AllDigits(po)
  {
    match Find(text, "Purchase Order")
    case Some(k) =>
      var rest := text[k + 14..];
      (match FirstDigit(rest)
       case Some(d) => rest[d..][..DigitRun(rest[d..])]
       case None => TenDigits(text))
    case None => TenDigits(text)
  }

  /** `re.search(r'(\d{10})', text)`: the leftmost ten consecutive digits, or "". */
  function TenDigits(s: string): (r: string)
    ensures r == [] || (|r| == 10 && AllDigits(r))
    decreases |s|
  {
    if |s| >= 10 && AllDigits(s[..10]) then s[..10]
    else if s == [] then []
    else TenDigits(s[1..])
  }

  /** The date text after "Created on:" and optional whitespace, at the leftmost place it appears. */
  function CreatedOnText(s: string): (r: Option<string>)
    ensures r.Some? ==> r.value != []
    decreases |s|
  {
    if s == [] then None
    else if StartsWith(s, "Created on:") && DateAfterSpaces(s[11..]).Some? then DateAfterSpaces(s[11..])
    else CreatedOnText(s[1..])
  }

  function DateAfterSpaces(s: string): (r: Option<string>)
    ensures r.Some? ==> r.value != []
  {
    var w := SpaceRun(s);
    match MonthDayYearAt(s[w..])
    case Some(n) => Some(s[w..][..n])
    case None => None
  }

  /** The length of the prefix of `s` before the first newline (what `.*` matches). */
  function LineRun(s: string): (k: nat)
    ensures k <= |s| && (k < |s| ==> s[k] == '\n')
    ensures forall i :: 0 <= i < k ==> s[i] != '\n'
  {
    if s != [] && s[0] != '\n' then 1 + LineRun(s[1..]) else 0
  }

  /** `re.search(r'Contact Person[:\s]*(.*)', text)`, stripped; "" when absent. */
  function WfPurchaser(text: string): string {
    match Find(text, "Contact Person")
    case Some(k) =>
      var rest := text[k + 14..];
      var after := rest[ColonSpaceRun(rest)..];
      Strip(after[..LineRun(after)])
    case None => ""
  }

  /** The header fields the extractor reads from the text of the first page. */
  function HeaderOf(text: string, parseDate: DateParser): Header {
    var placed := if CreatedOnText(text).Some? then parseDate(CreatedOnText(text).value) else None;
    Header(WfPoNumber(text), placed, WfPurchaser(text))
  }
}
