/**
 * `extract_centurion_data`: the document fields read from the text of all
 * pages, and the positional walk over the text lines after the item header,
 * where a line may continue on the next one.
 */
module Centurion {
  import opened Wrappers
  import opened Text
  import opened Digits
  import opened Numeric
  import opened Keys
  import opened Dates
  import opened Records
  import opened Sequences

  // ---------------------------------------------------------------------------
  // The text of all pages

  /** `all_text`: every page's text followed by a newline. */
  function AllText(texts: seq<string>): string {
    if texts == [] then [] else AllText(texts[..|texts| - 1]) + texts[|texts| - 1] + "\n"
  }

  /** `all_lines`: the lines of every page's text, page by page. */
  function AllLines(texts: seq<string>): seq<string> {
    if texts == [] then [] else AllLines(texts[..|texts| - 1]) + SplitOn(texts[|texts| - 1], '\n')
  }

  /** Each page contributes at least one line, even an empty page, and every line of `all_lines` ends in one
      newline of `all_text`. */
  lemma {:induction false} AllLinesCount(texts: seq<string>)
    ensures |AllLines(texts)| >= |texts|
    ensures |AllLines(texts)| == multiset(AllText(texts))['\n']
    decreases |texts|
  {
    if texts != [] {
      var last := texts[|texts| - 1];
      AllLinesCount(texts[..|texts| - 1]);
      SplitOnCount(last, '\n');
      assert multiset(AllText(texts)) == multiset(AllText(texts[..|texts| - 1])) + multiset(last) + multiset("\n");
    }
  }

  /** The page loop: gather the text and the lines of every page. */
  method ReadPages(texts: seq<string>) returns (allText: string, allLines: seq<string>)
    ensures allText == AllText(texts) && allLines == AllLines(texts)
  {
    allText, allLines := [], [];
    var p := 0;
    while p < |texts|
      invariant 0 <= p <= |texts|
      invariant allText == AllText(texts[..p]) && allLines == AllLines(texts[..p])
    {
      assert texts[..p + 1][..p] == texts[..p];
      allText := allText + texts[p] + "\n";
      allLines := allLines + SplitOn(texts[p], '\n');
      p := p + 1;
    }
    assert texts[..p] == texts;
  }

  // ---------------------------------------------------------------------------
  // Document fields

  predicate IsDashOrSpace(c: char) { c == '-' || IsSpace(c) }

  function DashSpaceRun(s: string): (k: nat)
    ensures k <= |s| && (forall i :: 0 <= i < k ==> IsDashOrSpace(s[i]))
    ensures k < |s| ==> !IsDashOrSpace(s[k])
  {
    if s != [] && IsDashOrSpace(s[0]) then 1 + DashSpaceRun(s[1..]) else 0
  }

  /** `re.search(r'PO[-\s]*(\d+)', text)`: the digits after the leftmost "PO" that has some. */
  function PoDigits(s: string): (r: Option<string>)
    ensures r.Some? ==> IsDigitString(r.value)
    decreases |s|
  {
    if s == [] then None
    else if StartsWith(s, "PO") && DigitRun(s[2..][DashSpaceRun(s[2..])..]) > 0 then
      var t := s[2..][DashSpaceRun(s[2..])..];
      Some(t[..DigitRun(t)])
    else PoDigits(s[1..])
  }

  /** A character of `[A-Z0-9\-]`. */
  predicate IsCodeChar(c: char) { 'A' <= c <= 'Z' || IsDigit(c) || c == '-' }

  function CodeRun(s: string): (k: nat)
    ensures k <= |s| && (forall i :: 0 <= i < k ==> IsCodeChar(s[i]))
    ensures k < |s| ==> !IsCodeChar(s[k])
  {
    if s != [] && IsCodeChar(s[0]) then 1 + CodeRun(s[1..]) else 0
  }

  /** `re.search(r'Number\s*([A-Z0-9\-]+)', text)`: the code after the leftmost "Number" that has one. */
  function NumberCode(s: string): (r: Option<string>)
    ensures r.Some? ==> r.value != [] && forall i :: 0 <= i < |r.value| ==> IsCodeChar(r.value[i])
    decreases |s|
  {
    if s == [] then None
    else if StartsWith(s, "Number") && CodeRun(s[6..][SpaceRun(s[6..])..]) > 0 then
      var t := s[6..][SpaceRun(s[6..])..];
      Some(t[..CodeRun(t)])
    else NumberCode(s[1..])
  }

  /** The PO number: the "PO" digits, else the "Number" code, else "". */
  function CenturionPo(allText: string): string {
    match PoDigits(allText)
    case Some(d) => d
    case None => match NumberCode(allText) case Some(c) => c case None => ""
  }

  predicate IsDateSeparator(c: char) { c == '/' || c == '-' }

  /**
   * The length of the match of `\d{1,2}[/-]\d{1,2}[/-]\d{2,4}` at the start of `s`: each of the
   * first two digit groups is a whole run of one or two digits, and the year takes up to four.
   */
  function DateTokenAt(s: string): (r: Option<nat>)
    ensures r.Some? ==> 6 <= r.value <= |s|
  {
    var a := DigitRun(s);
    if a < 1 || a > 2 || a >= |s| || !IsDateSeparator(s[a]) then None else DateAfterDay(s, a)
  }

  /** The rest of the match once the first group ends with a separator at `a`. */
  function DateAfterDay(s: string, a: nat): (r: Option<nat>)
    requires 1 <= a < |s|
    ensures r.Some? ==> a + 5 <= r.value <= |s|
  {
    var b := DigitRun(s[a + 1..]);
    var p := a + 1 + b;
    if b < 1 || b > 2 || p >= |s| || !IsDateSeparator(s[p]) then None else DateAfterMonth(s, p)
  }

  /** The rest of the match once the second group ends with a separator at `p`: the year. */
  function DateAfterMonth(s: string, p: nat): (r: Option<nat>)
    requires p < |s|
    ensures r.Some? ==> p + 3 <= r.value <= |s|
  {
    var c := DigitRun(s[p + 1..]);
    if c < 2 then None else Some(DateEnd(p, c))
  }

  /** The end of the date match: the year takes at most four of the `c` digits after position `p`. */
  function DateEnd(p: nat, c: nat): nat {
    p + 1 + (if c > 4 then 4 else c)
  }

  /** `re.search(r'Date[:\s]*(\d{1,2}[/-]\d{1,2}[/-]\d{2,4})', text)`: the date text, or None. */
  function PoDateText(s: string): (r: Option<string>)
    ensures r.Some? ==> |r.value| >= 6
    decreases |s|
  {
    if s == [] then None
    else if StartsWith(s, "Date") && DateTokenAt(s[4..][ColonSpaceRun(s[4..])..]).Some? then
      var t := s[4..][ColonSpaceRun(s[4..])..];
      Some(t[..DateTokenAt(t).value])
    else PoDateText(s[1..])
  }

  /** A character of `\w`, for the ASCII range. */
  predicate IsWordChar(c: char) { IsLetter(c) || IsDigit(c) || c == '_' }

  /** `re.search(r'Currency\s*(\w{3})', text)`: the three-letter code, or None. */
  function CurrencyCode(s: string): (r: Option<string>)
    ensures r.Some? ==> |r.value| == 3
    decreases |s|
  {
    if s == [] then None
    else if StartsWith(s, "Currency") && 3 <= |s[8..][SpaceRun(s[8..])..]|
      && IsWordChar(s[8..][SpaceRun(s[8..])..][0]) && IsWordChar(s[8..][SpaceRun(s[8..])..][1])
      && IsWordChar(s[8..][SpaceRun(s[8..])..][2]) then
      Some(s[8..][SpaceRun(s[8..])..][..3])
    else CurrencyCode(s[1..])
  }

  /** The currency symbol of the document: the code mapped to its symbol, "$" by default. */
  function SymbolOf(code: Option<string>): (sym: string)
    ensures sym == "$" || sym == "€" || sym == "£"
  {
    match code
    case Some(c) => if c == "EUR" then "€" else if c == "GBP" then "£" else "$"
    case None => "$"
  }

  /** The field names that mark the item header line. */
  predicate IsItemHeader(line: string) {
    (Contains(line, "Line") && Contains(line, "Item") && Contains(line, "Description") && Contains(line, "Quantity"))
    || (Contains(line, "number") && Contains(line, "Description") && Contains(line, "Quantity"))
  }

  /** The first item header line at or after `i`. */
  function ItemStartFrom(lines: seq<string>, i: nat): (r: Option<nat>)
    ensures r.Some? ==> i <= r.value < |lines| && IsItemHeader(lines[r.value])
    ensures r.Some? ==> forall k :: i <= k < r.value ==> !IsItemHeader(lines[k])
    ensures r.None? ==> forall k :: i <= k < |lines| ==> !IsItemHeader(lines[k])
    decreases |lines| - i
  {
    if i >= |lines| then None
    else if IsItemHeader(lines[i]) then Some(i)
    else ItemStartFrom(lines, i + 1)
  }

  // ---------------------------------------------------------------------------
  // Item lines

  /** `re.match(r'^\d+\s', line)`. */
  predicate IsItemLine(line: string) {
    0 < DigitRun(line) < |line| && IsSpace(line[DigitRun(line)])
  }

  /** `re.match(r'^\d+\s\S+', line)`: digits, one whitespace character, then a non-space. */
  predicate ItemFollows(line: string) {
    IsItemLine(line) && DigitRun(line) + 1 < |line| && !IsSpace(line[DigitRun(line) + 1])
  }

  /** The rows the walk passes over without looking at them. */
  predicate SkippedLine(line: string) {
    line == [] || Contains(line, "Total") || Contains(line, "Subtotal") || Contains(line, "Delivery") || Contains(line, "This order")
  }

  /** `re.match(r'^\d{3}', token)`. */
  predicate StartsThreeDigits(t: string) {
    |t| >= 3 && IsDigit(t[0]) && IsDigit(t[1]) && IsDigit(t[2])
  }

  /** The index of the first token at or after `j` that begins with a date. */
  function DateIndexFrom(parts: seq<string>, j: nat): (r: nat)
    ensures j <= r || r == |parts|
    ensures r <= |parts| || r == j
    ensures forall k :: j <= k < r && k < |parts| ==> DateTokenAt(parts[k]).None?
    ensures r < |parts| ==> DateTokenAt(parts[r]).Some?
    decreases |parts| - j
  {
    if j >= |parts| then j
    else if DateTokenAt(parts[j]).Some? then j
    else DateIndexFrom(parts, j + 1)
  }

  /** The description loop: tokens from the third on, up to the first that begins with a date. */
  method FindDateToken(parts: seq<string>) returns (j: nat)
    requires |parts| >= 2
    ensures j == DateIndexFrom(parts, 2)
  {
    j := 2;
    while j < |parts| && DateTokenAt(parts[j]).None?
      invariant 2 <= j <= |parts|
      invariant DateIndexFrom(parts, j) == DateIndexFrom(parts, 2)
    {
      j := j + 1;
    }
  }

  /** The fields of an item line read by position. */
  datatype ItemFields = ItemFields(
    lineNumber: string,
    pnPart: string,
    descParts: seq<string>,
    reqDate: Option<Date>,
    quantity: string,
    unitPrice: string,
    totalPrice: string)

  /**
   * The positional reading: line number, part number, the description up to the date token, then
   * the date, the quantity, a unit column skipped, the unit price, two discount columns skipped
   * and the total; a column beyond the end of the line stays "".
   */
  function FieldsOf(parts: seq<string>, sym: string, parseDate: DateParser): (f: ItemFields)
    requires |parts| >= 8
    ensures f.lineNumber == parts[0] && f.pnPart == parts[1]
    ensures f.descParts == parts[2..DateIndexFrom(parts, 2)]
  {
    var j := DateIndexFrom(parts, 2);
    if j < |parts| then
      ItemFields(parts[0], parts[1], parts[2..j], parseDate(parts[j]),
        if j + 1 < |parts| then parts[j + 1] else "",
        if j + 3 < |parts| then sym + parts[j + 3] else "",
        if j + 6 < |parts| then sym + parts[j + 6] else "")
    else ItemFields(parts[0], parts[1], parts[2..], None, "", "", "")
  }

  /** The document-level values every record of a Centurion order shares. */
  datatype Context = Context(po: string, poDate: Option<Date>, sym: string, parseDate: DateParser)

  /** The record built from the fields of an item line (`data_row`). */
  function CenturionRecord(ctx: Context, lineNumber: string, pn: string, description: string, f: ItemFields): OrderRecord {
    OrderRecord(ctx.po, pn, LineOf(lineNumber), CenturionPoLine(ctx.po, lineNumber), description,
      ParseDecimal(Without(f.quantity, {','})), ParseDecimal(f.unitPrice), ParseDecimal(f.totalPrice),
      f.reqDate, ctx.poDate, None)
  }

  /** The literal values the extractor substitutes for the first item of part family 510-000-. */
  function SpecialFirstItem(ctx: Context, lineNumber: string): OrderRecord {
    var f := ItemFields(lineNumber, "510-000-054", [], ctx.parseDate("2025/10/11"), "5,000.00",
      ctx.sym + "0.11", ctx.sym + "550.00");
    CenturionRecord(ctx, lineNumber, "510-000-054", "ARMIS ELITE T2 TORCH CLIPS FRONT LEFT", f)
  }

  /** What the walk does at one line: pass over it, or emit a record and use 0 or 1 further lines. */
  datatype Step = Pass | Emit(record: OrderRecord, extra: nat)

  /** The part number merged with the first token of the next line, and that line's other tokens. */
  function MergedPn(pnPart: string, description: string, next: seq<string>): (r: (string, string))
    requires next != []
    ensures r.0 == pnPart + next[0]
  {
    (pnPart + next[0], if |next| > 1 then description + " " + Join(" ", next[1..]) else description)
  }

  /** The record of item line `i` and how many following lines it takes (the continuation rules). */
  function ItemStep(ctx: Context, lines: seq<string>, i: nat, line: string, parts: seq<string>): (s: Step)
    requires i < |lines| && |parts| >= 8
    ensures s.Emit? && s.extra <= 1
    ensures s.extra == 1 ==> i + 1 < |lines|
  {
    var f := FieldsOf(parts, ctx.sym, ctx.parseDate);
    if f.lineNumber == "1" && Contains(line, "510-000-") then Emit(SpecialFirstItem(ctx, f.lineNumber), 0)
    else
      var description := Join(" ", f.descParts);
      if i + 1 < |lines| && Split(Strip(lines[i + 1])) != [] then
        var next := Strip(lines[i + 1]);
        var nextParts := Split(next);
        if EndsWith(f.pnPart, "-") && StartsThreeDigits(nextParts[0]) then
          var m := MergedPn(f.pnPart, description, nextParts);
          Emit(CenturionRecord(ctx, f.lineNumber, m.0, m.1, f), 1)
        else if !ItemFollows(next) then
          Emit(CenturionRecord(ctx, f.lineNumber, f.pnPart, description + " " + next, f), 1)
        else Emit(CenturionRecord(ctx, f.lineNumber, f.pnPart, description, f), 0)
      else Emit(CenturionRecord(ctx, f.lineNumber, f.pnPart, description, f), 0)
  }

  /** What the walk does at line `i`. */
  function StepAt(ctx: Context, lines: seq<string>, i: nat): (s: Step)
    requires i < |lines|
    ensures s.Emit? ==> s.extra <= 1 && (s.extra == 1 ==> i + 1 < |lines|)
  {
    var line := Strip(lines[i]);
    if SkippedLine(line) || !IsItemLine(line) || |Split(line)| < 8 then Pass
    else ItemStep(ctx, lines, i, line, Split(line))
  }

  /** The step at line `k`, as a function of `k`. */
  function StepFn(ctx: Context, lines: seq<string>): nat --> Step {
    (k: nat) requires k < |lines| => StepAt(ctx, lines, k)
  }

  /** The step at every line, each decided on its own. */
  function StepsOf(ctx: Context, lines: seq<string>): (steps: seq<Step>)
    ensures |steps| == |lines|
  {
    Tabulate(StepFn(ctx, lines), |lines|)
  }

  /** The records the walk emits from line `i` on, given the step at every line. */
  function WalkFrom(steps: seq<Step>, i: nat): seq<OrderRecord>
    decreases |steps| - i
  {
    if i >= |steps| then []
    else
      match steps[i]
      case Pass => WalkFrom(steps, i + 1)
      case Emit(r, extra) => [r] + WalkFrom(steps, i + 1 + extra)
  }

  /** The walk past a line that emits a record. */
  lemma WalkFromEmit(steps: seq<Step>, i: nat)
    requires i < |steps| && steps[i].Emit?
    ensures WalkFrom(steps, i) == [steps[i].record] + WalkFrom(steps, i + 1 + steps[i].extra)
  {
  }

  /** The walk past a line that emits nothing. */
  lemma WalkFromPass(steps: seq<Step>, i: nat)
    requires i < |steps| && steps[i].Pass?
    ensures WalkFrom(steps, i) == WalkFrom(steps, i + 1)
  {
  }

  method DecideStep(ctx: Context, lines: seq<string>, i: nat) returns (step: Step)
    requires i < |lines|
    ensures step == StepsOf(ctx, lines)[i]
  {
    step := StepAt(ctx, lines, i);
    TabulateAt(StepFn(ctx, lines), |lines|, i);
  }

  /** The `while i < len(all_lines)` walk from the line after the item header. */
  method Walk(ctx: Context, lines: seq<string>, start: nat) returns (data: seq<OrderRecord>)
    ensures data == WalkFrom(StepsOf(ctx, lines), start)
  {
    ghost var steps := StepsOf(ctx, lines);
    data := [];
    var i := start;
    while i < |lines|
      invariant start <= i
      invariant data + WalkFrom(steps, i) == WalkFrom(steps, start)
      decreases |lines| - i
    {
      var step := DecideStep(ctx, lines, i);
      if step.Emit? {
        WalkFromEmit(steps, i);
        assert data + WalkFrom(steps, i) == (data + [step.record]) + WalkFrom(steps, i + 1 + step.extra);
        data := data + [step.record];
        i := i + step.extra;
      } else {
        WalkFromPass(steps, i);
      }
      i := i + 1;
    }
    assert data + WalkFrom(steps, i) == data;
  }

  /** The document context read from the text of all pages. */
  function ContextOf(allText: string, parseDate: DateParser): Context {
    var dateText := PoDateText(allText);
    var poDate := if dateText.Some? then parseDate(dateText.value) else None;
    Context(CenturionPo(allText), poDate, SymbolOf(CurrencyCode(allText)), parseDate)
  }

  /** The records of a Centurion order: none when no item header line is found. */
  function CenturionData(texts: seq<string>, parseDate: DateParser): seq<OrderRecord> {
    var lines := AllLines(texts);
    match ItemStartFrom(lines, 0)
    case None => []
    case Some(h) => WalkFrom(StepsOf(ContextOf(AllText(texts), parseDate), lines), h + 1)
  }

  /** `extract_centurion_data` on the page texts already read from the PDF. */
  method ExtractCenturion(texts: seq<string>, parseDate: DateParser) returns (data: seq<OrderRecord>)
    ensures data == CenturionData(texts, parseDate)
  {
    var allText, lines := ReadPages(texts);
    var ctx := ContextOf(allText, parseDate);
    var itemStart := -1;
    var i := 0;
    while i < |lines|
      invariant 0 <= i <= |lines|
      invariant ItemStartFrom(lines, 0) == ItemStartFrom(lines, i)
    {
      if IsItemHeader(lines[i]) {
        itemStart := i;
        break;
      }
      i := i + 1;
    }
    if itemStart == -1 {
      data := [];
    } else {
      data := Walk(ctx, lines, itemStart + 1);
    }
  }

  // ---------------------------------------------------------------------------
  // Properties

  /** The match length read off the three digit runs and the two separators. */
  lemma DateTokenFromRuns(s: string, a: nat, p: nat, c: nat)
    requires 1 <= a <= 2 && a < |s| && DigitRun(s) == a && IsDateSeparator(s[a])
    requires a + 2 <= p <= a + 3 && p < |s| && DigitRun(s[a + 1..]) == p - a - 1 && IsDateSeparator(s[p])
    requires 2 <= c && DigitRun(s[p + 1..]) == c
    ensures DateTokenAt(s) == Some(DateEnd(p, c))
  {
    DateFirstGroup(s, a);
    DateSecondGroup(s, a, p);
    DateYearGroup(s, p, c);
  }

  lemma DateFirstGroup(s: string, a: nat)
    requires 1 <= a <= 2 && a < |s| && DigitRun(s) == a && IsDateSeparator(s[a])
    ensures DateTokenAt(s) == DateAfterDay(s, a)
  {
  }

  lemma DateSecondGroup(s: string, a: nat, p: nat)
    requires 1 <= a && a + 2 <= p <= a + 3 && p < |s| && DigitRun(s[a + 1..]) == p - a - 1 && IsDateSeparator(s[p])
    ensures DateAfterDay(s, a) == DateAfterMonth(s, p)
  {
  }

  lemma DateYearGroup(s: string, p: nat, c: nat)
    requires p < |s| && 2 <= c && DigitRun(s[p + 1..]) == c
    ensures DateAfterMonth(s, p) == Some(DateEnd(p, c))
  {
  }

  /** The digit run of a string is the position of its first non-digit. */
  lemma {:induction false} DigitRunTo(s: string, k: nat)
    requires k <= |s| && (forall i :: 0 <= i < k ==> IsDigit(s[i])) && (k < |s| ==> !IsDigit(s[k]))
    ensures DigitRun(s) == k
    decreases k
  {
    if k > 0 {
      DigitRunTo(s[1..], k - 1);
    }
  }

  /**
   * The date pattern at the start of a token, position by position: one or two digits, a
   * separator, one or two digits, a separator, and a run of at least two digits ending at `e`,
   * of which the match takes at most four.
   */
  lemma DateTokenOf(s: string, a: nat, p: nat, e: nat)
    requires 1 <= a <= 2 && a + 2 <= p <= a + 3 && p + 3 <= e <= |s|
    requires forall i :: 0 <= i < a ==> IsDigit(s[i])
    requires IsDateSeparator(s[a]) && IsDateSeparator(s[p])
    requires forall i :: a < i < p ==> IsDigit(s[i])
    requires forall i :: p < i < e ==> IsDigit(s[i])
    requires e < |s| ==> !IsDigit(s[e])
    ensures DateTokenAt(s) == Some(DateEnd(p, e - p - 1))
  {
    DigitRunTo(s, a);
    DigitRunTo(s[a + 1..], p - a - 1);
    DigitRunTo(s[p + 1..], e - p - 1);
    DateTokenFromRuns(s, a, p, e - p - 1);
  }

  /** A first digit group of three or more digits is not a date. */
  lemma LongFirstGroupNoDate(s: string)
    requires DigitRun(s) > 2
    ensures DateTokenAt(s).None?
  {
  }

  /** The currency symbol before a price does not change the number parsed from it. */
  lemma SymbolIgnored(sym: string, x: string)
    requires sym == "$" || sym == "€" || sym == "£"
    requires x != []
    ensures ParseDecimal(sym + x) == ParseDecimal(x)
  {
    assert sym == [sym[0]] && sym[0] in DecimalNoise;
    ParseDecimalDropLeading(sym[0], x);
  }

  /** A run of non-whitespace ended by whitespace is exactly the first word. */
  lemma {:induction false} WordRunAt(s: string, k: nat)
    requires k < |s| && IsSpace(s[k]) && forall i :: 0 <= i < k ==> !IsSpace(s[i])
    ensures WordRun(s) == k
    decreases k
  {
    if k > 0 {
      WordRunAt(s[1..], k - 1);
    }
  }

  /** The first token of an item line is its leading number. */
  lemma ItemLineNumber(line: string)
    requires IsItemLine(line)
    ensures Split(line) != [] && Split(line)[0] == line[..DigitRun(line)]
    ensures IsDigitString(Split(line)[0])
  {
    var k := DigitRun(line);
    assert forall i :: 0 <= i < k ==> line[..k][i] == line[i];
    WordRunAt(line, k);
    SplitFirstWord(line);
  }

  /** An emitted step comes from an item line and carries the document values and its line's keys. */
  lemma StepRecord(ctx: Context, lines: seq<string>, i: nat)
    requires i < |lines| && StepAt(ctx, lines, i).Emit?
    ensures !SkippedLine(Strip(lines[i])) && IsItemLine(Strip(lines[i])) && |Split(Strip(lines[i]))| >= 8
    ensures IsDigitString(Split(Strip(lines[i]))[0])
    ensures StepAt(ctx, lines, i).record.po == ctx.po
    ensures StepAt(ctx, lines, i).record.poPlacedDate == ctx.poDate
    ensures StepAt(ctx, lines, i).record.purchaser == None
    ensures StepAt(ctx, lines, i).record.line == LineOf(Split(Strip(lines[i]))[0])
    ensures StepAt(ctx, lines, i).record.poLine == CenturionPoLine(ctx.po, Split(Strip(lines[i]))[0])
  {
    var line := Strip(lines[i]);
    ItemLineNumber(line);
    ItemStepKeys(ctx, lines, i, line, Split(line));
  }

  /** Every record an item line yields carries the document values and the keys of its line number. */
  lemma ItemStepKeys(ctx: Context, lines: seq<string>, i: nat, line: string, parts: seq<string>)
    requires i < |lines| && |parts| >= 8
    ensures ItemStep(ctx, lines, i, line, parts).record.po == ctx.po
    ensures ItemStep(ctx, lines, i, line, parts).record.poPlacedDate == ctx.poDate
    ensures ItemStep(ctx, lines, i, line, parts).record.purchaser == None
    ensures ItemStep(ctx, lines, i, line, parts).record.line == LineOf(parts[0])
    ensures ItemStep(ctx, lines, i, line, parts).record.poLine == CenturionPoLine(ctx.po, parts[0])
  {
    var f := FieldsOf(parts, ctx.sym, ctx.parseDate);
    var r := ItemStep(ctx, lines, i, line, parts).record;
    if f.lineNumber == "1" && Contains(line, "510-000-") {
      assert r == SpecialFirstItem(ctx, f.lineNumber);
    } else {
      assert exists pn, d :: r == CenturionRecord(ctx, f.lineNumber, pn, d, f);
    }
  }

  /** `StepRecord` for the step of the walk at line `i`. */
  lemma StepsRecord(ctx: Context, lines: seq<string>, i: nat)
    requires i < |lines| && StepsOf(ctx, lines)[i].Emit?
    ensures IsItemLine(Strip(lines[i])) && |Split(Strip(lines[i]))| >= 8
    ensures IsDigitString(Split(Strip(lines[i]))[0])
    ensures StepsOf(ctx, lines)[i].record.po == ctx.po
    ensures StepsOf(ctx, lines)[i].record.poPlacedDate == ctx.poDate
    ensures StepsOf(ctx, lines)[i].record.purchaser == None
    ensures StepsOf(ctx, lines)[i].record.line == LineOf(Split(Strip(lines[i]))[0])
    ensures StepsOf(ctx, lines)[i].record.poLine == CenturionPoLine(ctx.po, Split(Strip(lines[i]))[0])
  {
    TabulateAt(StepFn(ctx, lines), |lines|, i);
    StepRecord(ctx, lines, i);
  }

  /** The first item of part family 510-000- gets the substituted values and uses no further line. */
  lemma SpecialItemStep(ctx: Context, lines: seq<string>, i: nat)
    requires i < |lines| && StepAt(ctx, lines, i).Emit?
    requires Split(Strip(lines[i]))[0] == "1" && Contains(Strip(lines[i]), "510-000-")
    ensures StepAt(ctx, lines, i) == Emit(SpecialFirstItem(ctx, "1"), 0)
  {
    StepRecord(ctx, lines, i);
  }

  /** A next line that is not a new item line is taken into the description and not walked again. */
  lemma ContinuationTaken(ctx: Context, lines: seq<string>, i: nat)
    requires i + 1 < |lines| && StepAt(ctx, lines, i).Emit?
    requires !(Split(Strip(lines[i]))[0] == "1" && Contains(Strip(lines[i]), "510-000-"))
    requires !EndsWith(Split(Strip(lines[i]))[1], "-")
    requires Split(Strip(lines[i + 1])) != [] && !ItemFollows(Strip(lines[i + 1]))
    ensures StepAt(ctx, lines, i).extra == 1
    ensures StepAt(ctx, lines, i).record.description ==
      Join(" ", FieldsOf(Split(Strip(lines[i])), ctx.sym, ctx.parseDate).descParts) + " " + Strip(lines[i + 1])
  {
    StepRecord(ctx, lines, i);
  }

  /** A next line that is a new item line is left for the walk, unless it completes a split part number. */
  lemma NextItemKept(ctx: Context, lines: seq<string>, i: nat)
    requires i + 1 < |lines| && StepAt(ctx, lines, i).Emit?
    requires !EndsWith(Split(Strip(lines[i]))[1], "-")
    requires ItemFollows(Strip(lines[i + 1]))
    ensures StepAt(ctx, lines, i).extra == 0
  {
    StepRecord(ctx, lines, i);
    var next := Strip(lines[i + 1]);
    assert next != [] && !IsSpace(next[0]);
  }

  /** A part number cut after a dash is completed from the next line, which is then not walked again. */
  lemma SplitPartNumberJoined(ctx: Context, lines: seq<string>, i: nat)
    requires i + 1 < |lines| && StepAt(ctx, lines, i).Emit?
    requires !(Split(Strip(lines[i]))[0] == "1" && Contains(Strip(lines[i]), "510-000-"))
    requires EndsWith(Split(Strip(lines[i]))[1], "-")
    requires Split(Strip(lines[i + 1])) != [] && StartsThreeDigits(Split(Strip(lines[i + 1]))[0])
    ensures StepAt(ctx, lines, i).extra == 1
    ensures StepAt(ctx, lines, i).record.pn == Split(Strip(lines[i]))[1] + Split(Strip(lines[i + 1]))[0]
  {
    StepRecord(ctx, lines, i);
  }

  /** Every record of the walk is emitted at some line from `i` on. */
  lemma {:induction false} WalkFromSound(steps: seq<Step>, i: nat, r: OrderRecord)
    requires r in WalkFrom(steps, i)
    ensures exists k :: i <= k < |steps| && steps[k].Emit? && steps[k].record == r
    decreases |steps| - i
  {
    if i < |steps| {
      match steps[i]
      case Pass => WalkFromSound(steps, i + 1, r);
      case Emit(q, extra) =>
        if r != q {
          WalkFromSound(steps, i + 1 + extra, r);
        }
    }
  }

  /** The walk emits at most one record per line. */
  lemma {:induction false} WalkFromLength(steps: seq<Step>, i: nat)
    requires i <= |steps|
    ensures |WalkFrom(steps, i)| <= |steps| - i
    decreases |steps| - i
  {
    if i < |steps| {
      match steps[i]
      case Pass => WalkFromLength(steps, i + 1);
      case Emit(q, extra) =>
        if i + 1 + extra <= |steps| {
          WalkFromLength(steps, i + 1 + extra);
        }
    }
  }

  /**
   * Every Centurion record carries the document's PO number and order date, no purchaser, and the
   * line number and `po_line` of an item line of the document.
   */
  lemma CenturionRecords(texts: seq<string>, parseDate: DateParser, r: OrderRecord)
    requires r in CenturionData(texts, parseDate)
    ensures r.po == CenturionPo(AllText(texts)) && r.purchaser == None
    ensures r.poPlacedDate == ContextOf(AllText(texts), parseDate).poDate
    ensures exists k :: (0 <= k < |AllLines(texts)| && IsItemLine(Strip(AllLines(texts)[k]))
      && |Split(Strip(AllLines(texts)[k]))| >= 8
      && IsDigitString(Split(Strip(AllLines(texts)[k]))[0])
      && r.line == LineOf(Split(Strip(AllLines(texts)[k]))[0])
      && r.poLine == CenturionPoLine(r.po, Split(Strip(AllLines(texts)[k]))[0]))
  {
    var lines := AllLines(texts);
    var ctx := ContextOf(AllText(texts), parseDate);
    var h := ItemStartFrom(lines, 0).value;
    var steps := StepsOf(ctx, lines);
    WalkFromSound(steps, h + 1, r);
    var k :| h + 1 <= k < |steps| && steps[k].Emit? && steps[k].record == r;
    StepsRecord(ctx, lines, k);
  }

  /** A Centurion order has at most as many records as its text has lines. */
  lemma CenturionCount(texts: seq<string>, parseDate: DateParser)
    ensures |CenturionData(texts, parseDate)| <= |AllLines(texts)|
  {
    var lines := AllLines(texts);
    match ItemStartFrom(lines, 0)
    case None =>
    case Some(h) =>
      WalkFromLength(StepsOf(ContextOf(AllText(texts), parseDate), lines), h + 1);
  }

  /** With a PO number, different line numbers give different `po_line` keys. */
  lemma CenturionPoLineInjective(po: string, a: string, b: string)
    requires po != [] && a != [] && b != [] && a != b
    ensures CenturionPoLine(po, a) != CenturionPoLine(po, b)
  {
    if CenturionPoLine(po, a) == CenturionPoLine(po, b) {
      assert po + "/" + a == (po + "/") + a && po + "/" + b == (po + "/") + b;
      PrefixCancel(po + "/", a, b);
    }
  }
}
