# proto-SAP purchase-order core, modelled in Dafny

This project models the core of proto-SAP, a purchase-order tracking system.
The model covers six parts of the system.

- **Extraction.** `backend/db_pdf_processor.py` reads purchase orders of three vendors into records: Wefabricate, Centurion and MAGIC FX.
- **Insert validation.** The same file checks each record's quantity × unit price against its total before the record is upserted.
- **Table operations.** `backend/models/database.py` and `backend/enhanced_db_manager.py` do duplicate detection, value cleaning, upserts keyed on `po_line`, key resolution, and hash-guarded (optimistic) updates and deletes.
- **Shipment.** `backend/controllers/shipment_controller.py` moves a shipped quantity from an open table to a closed table.
- **Import.** `backend/pdf_import_processor.py` routes a company's PDFs to an extractor and a target table, and counts successes and errors.
- **Accounts.** `backend/models/user_model.py` runs the user account life cycle: register, verify, set password, authenticate.

The modules follow that structure.

| module | models |
|---|---|
| `Wrappers`, `Digits`, `Text`, `Sequences` | Option/Result, decimal digit strings, the string operations the source uses (`strip`, `split`, `replace`, `in`, `startswith`), generic sequence facts |
| `Numeric` | `parse_decimal`, `clean_currency_value`, `parse_eur_price` (both copies), the MAGIC FX European-locale rewrite, the 0.02 tolerance check |
| `Keys` | `remove_leading_zeros` and the `po_line` / `line` / `pn` derivations of each vendor |
| `Dates`, `Records`, `Tables` | the date oracle, the extracted record, table rows as sequences of optional cells |
| `WefabricateRows`, `Wefabricate` | Wefabricate row classification, the per-page walk, and the cross-page stitching of data rows to schedule dates |
| `Centurion` | the positional walk over the text lines of a Centurion order |
| `MagicFxPatterns`, `MagicFxProps`, `MagicFxLines`, `MagicFxBlock`, `MagicFx` | the MAGIC FX table path, the text fallback in `extract_magic_fx_data`, and `parse_magic_fx_line` |
| `Store` | database tables as a column list plus a sequence of rows, with `WHERE` selection, update, delete and upsert |
| `Insert` | the three `insert_*` functions: the tolerance check, the counters and the transaction |
| `Manager` | `DatabaseManager` of `backend/models/database.py` |
| `Enhanced` | `DatabaseManager` of `backend/enhanced_db_manager.py` |
| `Shipment` | `ShipmentController.process_shipment` |
| `Importer` | `PDFImportProcessor` |
| `Users` | `UserManager` |

Some things stay abstract and are parameters of the model.

- **Oracles.** Date parsing is a function from text to an optional date. The same goes for MD5-of-`str(dict)`, SHA-256, token generation and the current time.
- **Regex tokenisers.** The MAGIC FX regular expressions that cut a text block into groups are an oracle: a function from text to an optional tuple of groups.
- **Extractor I/O.** The PDF text and tables arrive as given values. The extractors themselves are passed to the import processor as a function.

Numbers are exact: `Decimal` and Python `float` values are both modelled as Dafny `real`, without the rounding of either or of the database columns (see "## Left out").

## Model

| member | source | states |
|---|---|---|
| Numeric.ParseDecimalNumeral | backend/db_pdf_processor.py:735-748 | a numeral behind any currency marks or commas parses to its value (so "€1,234.56" gives 1234.56) |
| Numeric.ParseDecimalIgnoresNoise | backend/db_pdf_processor.py:741-744 | inserting a €, $, £ or comma anywhere into non-empty text does not change what `parse_decimal` returns |
| Numeric.NoDigitNoParse | backend/db_pdf_processor.py:737-738 | text without a digit, the empty value included, parses to None (text `Decimal` would read without a digit, such as "NaN" or "Infinity", is outside the model's grammar) |
| Numeric.DecimalOfNumeral | backend/db_pdf_processor.py:746 | `Decimal` reads a numeral `\d+(\.\d*)?` as its value |
| Numeric.FirstNumeral | backend/db_pdf_processor.py:709-711 | the regex search for a numeral fails exactly when the text has no digit; when it succeeds it yields a numeral |
| Numeric.FirstNumeralLocate | backend/db_pdf_processor.py:709 | the search finds the leftmost, longest numeral: digit-free text, then a numeral that the next character cannot extend |
| Numeric.CurrencySymbol | backend/db_pdf_processor.py:716-731 | the chosen symbol is one of €, $, £ or empty (€/EUR before $ before £ before the USD/GBP codes) |
| Numeric.CleanCurrencyValue | backend/db_pdf_processor.py:700-733 | text without a digit comes back unchanged; otherwise the result is the chosen symbol followed by a numeral |
| Numeric.CleanCurrencyValueParses | backend/db_pdf_processor.py:706-733 | a cleaned value parses to the value of the first numeral of the comma-free input |
| Numeric.CleanCurrencyValueIdempotent | backend/db_pdf_processor.py:700-733 | cleaning a cleaned value changes nothing |
| Numeric.SymbolOfCleaned | backend/db_pdf_processor.py:716-722 | the symbol found in "symbol + numeral" is that symbol |
| Numeric.EurPriceOf | backend/db_pdf_processor.py:682-698 | an unpriceable text is returned as it was given |
| Numeric.ParseEurPrice | backend/db_pdf_processor.py:673-684 | empty input gives ("", ""); an unpriceable input gives its newline-free, stripped text |
| Numeric.WfParseEurPrice | backend/db_pdf_processor.py:47-68 | the extractor-local copy: an unpriceable input is returned unchanged; a priced one is the exact unit rounded to four places and the full price rounded to two (the `.4f` and `.2f` formats) |
| Numeric.EurPriceOfUnit | backend/db_pdf_processor.py:686-696 | unit price × the "per N" quantity (1 when absent) equals the full price |
| Numeric.EurPriceOfPriced | backend/db_pdf_processor.py:682-698 | a price is found iff the text has a digit and its quantity is not "per 0" |
| Numeric.EurPriceOfTotal | backend/db_pdf_processor.py:682-696 | the second result is the first number of the comma-free text |
| Numeric.ParseEurPriceUnit | backend/db_pdf_processor.py:673-698 | the module-level `parse_eur_price` keeps unit × quantity = full price |
| Numeric.ParseEurPricePriced | backend/db_pdf_processor.py:673-698 | the module-level `parse_eur_price` prices iff its text has a digit and a non-zero quantity |
| Numeric.WfParseEurPriceUnit | backend/db_pdf_processor.py:62-66 | the local copy's unit is within 1/20000 of the exact full price ÷ quantity, and its price within 1/200 of the number read |
| Numeric.WfParseEurPricePriced | backend/db_pdf_processor.py:47-68 | the local copy prices iff its text has a digit and a non-zero quantity |
| Numeric.RoundPlaces | backend/db_pdf_processor.py:66 | `f"{x:.kf}"` read back as a number is within half a unit of the k-th decimal place of `x` |
| Numeric.RoundedUnitTimes | backend/db_pdf_processor.py:64-66 | a unit rounded as the local copy rounds it, times the "per N" quantity, is within N/20000 of the full price |
| Numeric.WfRoundedUnitExample | backend/db_pdf_processor.py:64-66 | "100 per 3" gives the unit 33.3333, and 3000 units of it against the total 100000 fail the 0.02 check (also lines 472-476) |
| Numeric.EurTextDigits | backend/db_pdf_processor.py:679 | replacing newlines and stripping neither adds nor removes digits |
| Numeric.ParseEurPricePerN | backend/db_pdf_processor.py:687-696 | "d per N" with N > 0 is priced d / N per unit and d in total by the module-level version, and d / N rounded to four places and d rounded to two by the local copy (also lines 53-66) |
| Numeric.EuroPrefixed | backend/db_pdf_processor.py:1122-1132 | the € prefix never changes the parsed value; a non-empty result carries a currency symbol |
| Numeric.EuToUsOf | backend/db_pdf_processor.py:1121 | deleting the points and turning "," into "." reads `x,c` as the number `w.c`, where `w` is `x` without grouping points (also lines 1130, 1307-1309) |
| Numeric.EuToUsGrouped | backend/db_pdf_processor.py:989-992 | "a.b,c" reads as the number "ab.c" |
| Numeric.EuToUsDecimalComma | backend/db_pdf_processor.py:989-992 | "a,c" reads as the number "a.c" |
| Numeric.EuToUsExample | backend/db_pdf_processor.py:989 | "512,60" reads as 512.6 |
| Numeric.EuToUsGroupedExample | backend/db_pdf_processor.py:989 | "1.234,56" reads as 1234.56 |
| Numeric.ToleranceExample | backend/db_pdf_processor.py:472-476 | 480 × 0.033 against 15.84 passes the 0.02 tolerance, 480 × 0.030 fails it, and a missing operand skips the check |
| Keys.RemoveLeadingZeros | backend/db_pdf_processor.py:635-642 | an all-digit string becomes its canonical form with the same value; any other string is unchanged |
| Keys.RemoveLeadingZerosIdempotent | backend/db_pdf_processor.py:635-642 | stripping twice is stripping once |
| Keys.RemoveLeadingZerosCanonical | backend/db_pdf_processor.py:640-641 | a canonical numeral is left alone |
| Keys.RemoveLeadingZerosSame | backend/db_pdf_processor.py:640-641 | two digit strings strip to the same text iff they have the same value |
| Keys.RemoveLeadingZerosExample | backend/db_pdf_processor.py:641 | "00030" becomes "30" |
| Keys.WfPoLine | backend/db_pdf_processor.py:423 | with no "/" in its parts, the key has a "/" iff both the PO number and the item are non-empty, and it then splits at "/" back into the two |
| Keys.LineOf | backend/db_pdf_processor.py:422 | `int(s)` is defined iff `s` is all digits, and its value renders back as `s` without leading zeros (also line 908) |
| Keys.LineOfStripped | backend/db_pdf_processor.py:422-423 | the `line` of a stripped item renders back as the stripped item |
| Keys.WfPoLineInjective | backend/db_pdf_processor.py:423 | within one order, items with different numbers get different `po_line` keys |
| Keys.CenturionPoLine | backend/db_pdf_processor.py:909 | a key exists iff both the PO number and the line number are non-empty; without "/" in either it splits at "/" back into the two |
| Keys.MagicFxPoLine | backend/db_pdf_processor.py:1001 | with an order number free of "/" the key splits at "/" into that number and the rendered line counter; without one it is the canonical numeral of the counter (also lines 1145, 1322) |
| Keys.MagicFxPn | backend/db_pdf_processor.py:1313 | with an order number free of "-" the part number splits at "-" into that number (or "MFX" when there is none) and a digit string whose value is the line counter |
| Keys.MagicFxPoLineInjective | backend/db_pdf_processor.py:1163 | distinct line counters give distinct `po_line` keys (also lines 1322, 1340) |
| Keys.MagicFxPnInjective | backend/db_pdf_processor.py:1313 | distinct line counters give distinct synthetic part numbers (also line 1340) |
| WefabricateRows.HeaderFrom | backend/db_pdf_processor.py:176-181 | the header row found is the first row at or after `j` that mentions "Item" or "ID"; no row qualifies when none is found |
| WefabricateRows.StartIndex | backend/db_pdf_processor.py:186 | data rows start within the table: after the header, or at row 0 when there is no header |
| WefabricateRows.FindHeader | backend/db_pdf_processor.py:176-186 | the header loop returns the start index `StartIndex` defines |
| WefabricateRows.MonthDayYearAt | backend/db_pdf_processor.py:207 | a match of `[A-Za-z]+\s*\d{1,2},\s*\d{4}` is non-empty and inside the cell |
| WefabricateRows.QuantityOf | backend/db_pdf_processor.py:261-267 | the quantity read from the cell is made of digits only |
| WefabricateRows.QuantityParses | backend/db_pdf_processor.py:264-267 | a non-empty quantity parses to the whole number it spells (also line 425) |
| WefabricateRows.QuantityWithoutDigits | backend/db_pdf_processor.py:264-267 | a cell without a digit gives a quantity that parses to None (also line 425) |
| WefabricateRows.NetValueParses | backend/db_pdf_processor.py:277-294 | a net-value cell with a digit yields the value of the first number of its comma-free, EUR-to-€ text (also line 427) |
| WefabricateRows.NetValueWithoutDigits | backend/db_pdf_processor.py:277-294 | a net-value cell without a digit yields no total price, within the digits-only grammar of `Numeric.ParseDecimal` (also line 427) |
| WefabricateRows.DataRowOf | backend/db_pdf_processor.py:228-318 | a data row records its table row index, and its item is empty or all digits |
| WefabricateRows.ScheduleAt | backend/db_pdf_processor.py:196-221 | a marker resolves only to the date row directly below it on the same table |
| WefabricateRows.ClassifyData | backend/db_pdf_processor.py:189-193 | a row is a data row iff it is non-empty, has no boilerplate token, has no marker, has an all-digit item cell and an empty or `dddd-dddd-dddd` ID; such a row is read by `DataRowOf` (also lines 196, 241-242, 299-302) |
| WefabricateRows.ScanTable | backend/db_pdf_processor.py:172-327 | the first pass over a table collects exactly the data rows and resolved markers the classification defines |
| WefabricateRows.DataRowsSound | backend/db_pdf_processor.py:187-319 | every collected data row comes from a row after the header that meets the data-row condition |
| WefabricateRows.DataRowsComplete | backend/db_pdf_processor.py:187-319 | every row after the header that meets the data-row condition is collected |
| WefabricateRows.DataRowsOrdered | backend/db_pdf_processor.py:187 | data rows are collected in table order (also line 319) |
| WefabricateRows.MarkerRow | backend/db_pdf_processor.py:189-196 | a row classified as a marker is non-empty, free of boilerplate, mentions "Schedule Lines:", and resolves as `ScheduleAt` says |
| WefabricateRows.ScheduleAtResolved | backend/db_pdf_processor.py:198-219 | a resolved marker's date row is the next row, with more than four cells, its stripped fifth cell as date text, and the date parsed from that text |
| WefabricateRows.ClassifyMarker | backend/db_pdf_processor.py:196-222 | a resolved-marker classification carries its own row index and a resolved schedule line |
| WefabricateRows.SchedulesExact | backend/db_pdf_processor.py:196-219 | every collected schedule line comes from a marker after the header whose date row is the next row |
| WefabricateRows.SchedulesOrdered | backend/db_pdf_processor.py:187 | schedule lines are collected in table order (also line 213) |
| WefabricateRows.DataRowNotMarker | backend/db_pdf_processor.py:196 | no table row yields both a data row and a schedule line (also line 222) |
| WefabricateRows.MarkerOnLastRow | backend/db_pdf_processor.py:198-199 | a marker in a table's last row creates no schedule line, even when its date row starts the next page |
| WefabricateRows.WfPoNumber | backend/db_pdf_processor.py:135-138 | the PO number read from page 0 is all digits, possibly empty |
| WefabricateRows.TenDigits | backend/db_pdf_processor.py:137 | the fallback match is empty or exactly ten digits |
| WefabricateRows.CreatedOnText | backend/db_pdf_processor.py:143-146 | the "Created on:" date text, when found, is non-empty |
| Wefabricate.PageHeader | backend/db_pdf_processor.py:129-153 | page 0 reads its own header; a later page has an empty PO number and reuses page 0's date and purchaser (also lines 160-169) |
| Wefabricate.CollectPages | backend/db_pdf_processor.py:124-329 | one page record per page, each the first pass over that page |
| Wefabricate.ShareFirstPage | backend/db_pdf_processor.py:333-342 | the sharing loop gives exactly `Shared`: page 0's header copied onto every later page |
| Wefabricate.SharedHeaders | backend/db_pdf_processor.py:333-342 | after sharing, every page carries page 0's PO number, date and purchaser |
| Wefabricate.CollectElements | backend/db_pdf_processor.py:345-387 | the collection loops build the data elements page by page, followed by the schedule elements page by page |
| Wefabricate.SortByKey | backend/db_pdf_processor.py:390 | the sort keeps the list's length |
| Wefabricate.SortByKeySorted | backend/db_pdf_processor.py:390 | the sort orders by (page, row) and is a permutation |
| Wefabricate.SortByKeyUnique | backend/db_pdf_processor.py:390 | sorting keeps keys pairwise different |
| Wefabricate.SortByKeyCount | backend/db_pdf_processor.py:390 | sorting neither adds nor loses data elements |
| Wefabricate.FirstScheduleFrom | backend/db_pdf_processor.py:410-414 | the index found is the first schedule element at or after `j`; when there is none, everything from `j` on is data |
| Wefabricate.NextScheduleDate | backend/db_pdf_processor.py:409-414 | the look-ahead returns the date of the first schedule element after position `i`, or None |
| Wefabricate.Stitch | backend/db_pdf_processor.py:393-442 | the stitching loop builds one record per data element in list order, each dated by the look-ahead |
| Wefabricate.StitchElement | backend/db_pdf_processor.py:394-442 | one round of the loop extends the records exactly as stitching one more element does: a data element adds its record, any other element adds nothing |
| Wefabricate.StitchedCount | backend/db_pdf_processor.py:393-442 | stitching yields one record per data element |
| Wefabricate.StitchedFrom | backend/db_pdf_processor.py:393-442 | every record comes from a data element, dated by the first schedule element after it |
| Wefabricate.ExtractWefabricate | backend/db_pdf_processor.py:119-444 | the extractor's statements compute `WefabricateData` of the pages |
| Wefabricate.FirstPassWellFormed | backend/db_pdf_processor.py:124-342 | page records are well formed, before and after sharing: each is numbered by its position, its data rows and schedule lines are in row order, and no row is both |
| Wefabricate.ElementsUnique | backend/db_pdf_processor.py:345-387 | collected elements have pairwise different (page, row) keys |
| Wefabricate.SortedElementsStrict | backend/db_pdf_processor.py:345-390 | the list the stitcher walks is strictly sorted by (page, row) |
| Wefabricate.BindsNearest | backend/db_pdf_processor.py:408-414 | in a strictly sorted list, the first schedule element after a data element is the nearest one after it in (page, row) order; none is found iff no schedule element comes after it |
| Wefabricate.WefabricateBinding | backend/db_pdf_processor.py:390-428 | each data row of the extractor takes the date of the nearest schedule line after it across all pages, and None when no schedule line follows it |
| Wefabricate.WefabricateCount | backend/db_pdf_processor.py:319 | the extractor returns exactly one record per data row over all pages (also lines 393-442) |
| Wefabricate.WefabricateRecords | backend/db_pdf_processor.py:333-342 | every record carries the PO number, order date and purchaser read from page 0 (also lines 419-433) |
| Text.SplitOnCount | backend/db_pdf_processor.py:768 | `text.split('\n')` has exactly one part more than the text has newlines |
| Centurion.AllLinesCount | backend/db_pdf_processor.py:765-768 | every page, even an empty one, contributes at least one line, and `all_lines` has exactly as many lines as `all_text` has newlines |
| Centurion.ReadPages | backend/db_pdf_processor.py:761-768 | the page loop builds the newline-joined text and the concatenated lines of all pages |
| Centurion.PoDigits | backend/db_pdf_processor.py:773 | a PO number found after "PO" is a non-empty digit string |
| Centurion.NumberCode | backend/db_pdf_processor.py:775 | the fallback code after "Number" is a non-empty run of `[A-Z0-9-]` |
| Centurion.DateTokenAt | backend/db_pdf_processor.py:780 | a match of `\d{1,2}[/-]\d{1,2}[/-]\d{2,4}` is at least six characters long and inside the text (also line 835) |
| Centurion.DateTokenOf | backend/db_pdf_processor.py:835 | one or two digits, a separator, one or two digits, a separator and two or more digits match up to the end of the last digit group (four at most) |
| Centurion.LongFirstGroupNoDate | backend/db_pdf_processor.py:835 | a token that starts with three or more digits does not begin with a date |
| Centurion.PoDateText | backend/db_pdf_processor.py:780-781 | the order-date text, when found, is at least six characters long |
| Centurion.CurrencyCode | backend/db_pdf_processor.py:787 | the currency code found is three characters long |
| Centurion.SymbolOf | backend/db_pdf_processor.py:786-796 | the document symbol is $, € or £, with $ as the default |
| Centurion.SymbolIgnored | backend/db_pdf_processor.py:858 | the symbol put in front of a price does not change the number parsed from it (also lines 864, 912-913) |
| Centurion.ItemStartFrom | backend/db_pdf_processor.py:800-807 | the item header is the first line at or after `i` that has the header keywords; when none is found, no line has them |
| Centurion.DateIndexFrom | backend/db_pdf_processor.py:834-837 | the description stops at the first token that begins with a date, or at the end |
| Centurion.FindDateToken | backend/db_pdf_processor.py:834-837 | the description loop stops where `DateIndexFrom` says |
| Centurion.FieldsOf | backend/db_pdf_processor.py:825-864 | the line number and part number are the first two tokens; the description is every token from the third up to the date token |
| Centurion.ItemLineNumber | backend/db_pdf_processor.py:821-825 | the first token of an item line is its leading digit run |
| Centurion.MergedPn | backend/db_pdf_processor.py:889-894 | a part number cut after a dash is joined with the next line's first token |
| Centurion.ItemStep | backend/db_pdf_processor.py:824-926 | an item line emits one record and takes at most one following line, which must exist |
| Centurion.StepRecord | backend/db_pdf_processor.py:815-826 | a record is emitted only at a non-skipped item line with at least eight tokens, and carries the document PO number and date, no purchaser, and the `line` and `po_line` of that line's first token (also lines 905-926) |
| Centurion.SpecialItemStep | backend/db_pdf_processor.py:866-874 | line 1 of part family 510-000- gets the substituted literal values and takes no following line |
| Centurion.ContinuationTaken | backend/db_pdf_processor.py:896-900 | a following line that does not start a new item is appended to the description and skipped |
| Centurion.NextItemKept | backend/db_pdf_processor.py:896-900 | a following line that starts a new item is left for the walk (unless it completes a split part number) |
| Centurion.SplitPartNumberJoined | backend/db_pdf_processor.py:888-895 | a part number ending in "-" followed by a line starting with three digits is completed from that line, which is then skipped |
| Centurion.Walk | backend/db_pdf_processor.py:813-928 | the `while` walk returns the records its steps emit, in line order |
| Centurion.WalkFromSound | backend/db_pdf_processor.py:813-928 | every record of the walk is emitted at some line of the walk |
| Centurion.WalkFromLength | backend/db_pdf_processor.py:813-928 | the walk emits at most one record per line |
| Centurion.ExtractCenturion | backend/db_pdf_processor.py:750-930 | the extractor's statements compute `CenturionData` of the page texts |
| Centurion.CenturionRecords | backend/db_pdf_processor.py:773-782 | every record carries the document PO number and order date, no purchaser, and the `line` and `po_line` of one of the document's item lines (also lines 905-925) |
| Centurion.CenturionCount | backend/db_pdf_processor.py:813-928 | an order yields at most as many records as its text has lines |
| Centurion.CenturionPoLineInjective | backend/db_pdf_processor.py:909 | with a PO number, different line numbers give different `po_line` keys |
| MagicFxPatterns.DigitsAfter | backend/db_pdf_processor.py:1040 | the digits found after the tag are a non-empty digit string |
| MagicFxPatterns.DateAfter | backend/db_pdf_processor.py:1045 | the date found after the tag is ten characters of the form `dd-dd-dddd` |
| MagicFxPatterns.CodeAt | backend/db_pdf_processor.py:1204 | a `PROTO (...)` or `VARIOUS` code match is non-empty and inside the text |
| MagicFxPatterns.CodePair | backend/db_pdf_processor.py:1204 | the end of two leading item codes lies inside the line (also lines 1240, 1284) |
| MagicFxPatterns.NumRun | backend/db_pdf_processor.py:1223 | the `[\d.,]+` run is the longest prefix of digits, points and commas (also line 1266) |
| MagicFxPatterns.UnitEnd | backend/db_pdf_processor.py:1223 | the end of the optional unit part lies inside the text (also line 1266) |
| MagicFxPatterns.QtyPrice | backend/db_pdf_processor.py:1266-1272 | the quantity group of a match is a non-empty digit string |
| MagicFxPatterns.SingleFrom | backend/db_pdf_processor.py:1223-1224 | a match of the line pattern from description end `k` on has a `dd-dd-dddd` date and a whole quantity |
| MagicFxPatterns.SingleLine | backend/db_pdf_processor.py:1223-1232 | the one-line item pattern yields a `dd-dd-dddd` date and a whole quantity |
| MagicFxPatterns.DateLine | backend/db_pdf_processor.py:1256-1262 | a delivery date line starts with a ten-character `dd-dd-dddd` date |
| MagicFxPatterns.Collapse | backend/db_pdf_processor.py:1277 | every whitespace run becomes one space: no two whitespace characters in a row, only spaces as whitespace, empty iff the input is |
| MagicFxPatterns.NoSpace | backend/db_pdf_processor.py:973-975 | whitespace removal leaves no whitespace and never lengthens the text |
| MagicFxPatterns.Numbers | backend/db_pdf_processor.py:956 | `re.findall(r'[\d.,]+')` yields non-empty runs of digits, points and commas |
| MagicFxLines.DigitsAfterLabel | backend/db_pdf_processor.py:1040 | after the tag and whitespace, the whole digit run is found |
| MagicFxLines.OrderPoOf | backend/db_pdf_processor.py:1040-1041 | "Purchase Order No." followed by whitespace and digits gives those digits as the order number |
| MagicFxLines.CodePairVarious | backend/db_pdf_processor.py:1204 | "VARIOUS VARIOUS ..." starts with two codes, ending after the second |
| MagicFxLines.PricePairOf | backend/db_pdf_processor.py:1223 | two `[\d.,]+` runs separated by one space are the two price groups (also line 1266) |
| MagicFxLines.UnitEndSpace | backend/db_pdf_processor.py:1223 | with no unit, the prices start after the single space (also line 1266) |
| MagicFxLines.UnitEndPc | backend/db_pdf_processor.py:1223 | a " pc " unit is passed over (also line 1266) |
| MagicFxLines.UnitEndPcs | backend/db_pdf_processor.py:1223 | a " pcs " unit is passed over: "pc" is tried first, fails on the "s", and "pcs" matches (also line 1266) |
| MagicFxLines.QtyPriceOf | backend/db_pdf_processor.py:1266-1272 | "q n t" reads as quantity q, unit price n and total t |
| MagicFxLines.QtyPriceWithUnit | backend/db_pdf_processor.py:1266-1272 | "q pc n t" and "q pcs n t" read as quantity q, unit price n and total t |
| MagicFxLines.TailInsideDescription | backend/db_pdf_processor.py:1223 | the lazy description group cannot end inside a digit-free description |
| MagicFxLines.SingleLineOf | backend/db_pdf_processor.py:1223-1232 | "description date amounts" with a digit-free description yields exactly that description, date and amounts |
| MagicFxLines.TextQtyValue | backend/db_pdf_processor.py:1307-1324 | a whole quantity survives the European rewrite as its number |
| MagicFxLines.TextPriceValue | backend/db_pdf_processor.py:1308-1325 | "€" + rewrite of `a,c` parses to a.c |
| MagicFxLines.TextGroupedPriceValue | backend/db_pdf_processor.py:1308-1326 | "€" + rewrite of `a.b,c` parses to ab.c |
| MagicFxLines.TextRecordQty | backend/db_pdf_processor.py:1307-1324 | every record of the text path has the item's whole quantity |
| MagicFxLines.TrailingLetterNoNumber | backend/db_pdf_processor.py:1147 | a digit string followed by "s" is not a decimal |
| MagicFxLines.ScrubAsWrittenKeepsS | backend/db_pdf_processor.py:1114 | as written, scrubbing "10 pcs" leaves "10s", which parses to no quantity (also line 1147) |
| MagicFxLines.PcsCellNoQuantity | backend/db_pdf_processor.py:1113-1114 | as written, a table row whose quantity cell reads "d pcs" makes a record with no quantity (also line 1147) |
| MagicFxLines.ScrubUnitQuantity | backend/db_pdf_processor.py:1113-1114 | with the whole unit removed, "d", "d pc", "d pcs" and "d PCS" read as the quantity d (also line 1147) |
| MagicFxLines.ScrubAgree | backend/db_pdf_processor.py:1114 | where no "pcs" occurs in any letter case, the scrub as written and as intended agree |
| MagicFxBlock.BlockFieldsOf | backend/db_pdf_processor.py:943-970 | no match gives no fields; a full match always gives fields; the short match gives fields iff at least three numbers follow the date |
| MagicFxBlock.FieldsRecord | backend/db_pdf_processor.py:972-1018 | a record is built iff the description, quantity and unit price are non-empty |
| MagicFxBlock.ParseMagicFxLine | backend/db_pdf_processor.py:934-1018 | a record is returned iff the block's fields are found and complete; it carries the order number, pn "N/A", the line number, the `po_line` key, a non-empty description, the order date and no purchaser |
| MagicFxBlock.FieldsValues | backend/db_pdf_processor.py:972-1005 | whole quantity q and European prices `a,c` and `b,e` become the numbers q, a.c and b.e |
| MagicFxBlock.ParseFullMatch | backend/db_pdf_processor.py:943-1005 | a full match with whole quantity q and prices `a,c` and `b,e` yields a record with q, a.c and b.e |
| MagicFxBlock.ParseDateMatch | backend/db_pdf_processor.py:948-962 | with the short pattern, the first three numbers after the date are the quantity, unit price and total, in that order (also lines 990-1005) |
| MagicFx.OrderPo | backend/db_pdf_processor.py:1040-1041 | the order number is empty or a digit string |
| MagicFx.ContextOf | backend/db_pdf_processor.py:1035-1054 | the document context carries the order number of the first page, and no order date when the date pattern does not match |
| MagicFx.HeaderFrom | backend/db_pdf_processor.py:1065-1069 | the header row is the first row from `i` on that mentions "Code" or "Description"; when none is found no row does |
| MagicFx.FindHeaderRow | backend/db_pdf_processor.py:1065-1069 | the search returns -1 iff there is no header row, and otherwise its index |
| MagicFx.RowOptions | backend/db_pdf_processor.py:1078-1137 | every row is decided on its own: one decision per row |
| MagicFx.RowItems | backend/db_pdf_processor.py:1078-1137 | at most one item per row |
| MagicFx.ReadRow | backend/db_pdf_processor.py:1079-1137 | the checks of one row give the fields `RowOptions` defines for it, the quantity cell scrubbed as written |
| MagicFx.TableRecords | backend/db_pdf_processor.py:1140-1163 | one record per item |
| MagicFx.ReadRows | backend/db_pdf_processor.py:1075-1163 | the row loop builds exactly the numbered records of the rows that make records |
| MagicFx.ReadTable | backend/db_pdf_processor.py:1059-1163 | the table path builds exactly `TableData` |
| MagicFx.MultiFrom | backend/db_pdf_processor.py:1249-1295 | a multi-line item ends at a date line after `j`, with a `dd-dd-dddd` date and a whole quantity |
| MagicFx.CollectItem | backend/db_pdf_processor.py:1249-1295 | the inner loop collects exactly the item `MultiFrom` defines |
| MagicFx.ItemAt | backend/db_pdf_processor.py:1212-1296 | an item read at line `i` uses lines inside the text, and has a date and a whole quantity |
| MagicFx.LineStep | backend/db_pdf_processor.py:1179-1298 | a header line starts the data, a stop line ends the walk, and an item starts at a line with two codes, with a date and a whole quantity |
| MagicFx.StepsOf | backend/db_pdf_processor.py:1179-1342 | one step per line |
| MagicFx.DecideStep | backend/db_pdf_processor.py:1180-1298 | one round's checks give the step `StepsOf` defines for that line |
| MagicFx.TextRound | backend/db_pdf_processor.py:1179-1342 | one round of the walk either stops, takes one item and moves on, or moves on, keeping the walk invariant |
| MagicFx.TakeItem | backend/db_pdf_processor.py:1298-1342 | an item taken by the walk is appended to the items gathered so far |
| MagicFx.ReadLines | backend/db_pdf_processor.py:1172-1342 | the walk over the lines builds the numbered records of the text items |
| MagicFx.ReadText | backend/db_pdf_processor.py:1165-1342 | the text path builds exactly `TextData` |
| MagicFx.TextRecords | backend/db_pdf_processor.py:1298-1340 | one record per text item |
| MagicFx.MagicFxData | backend/db_pdf_processor.py:1030-1032 | an order without pages has no records |
| MagicFx.ExtractMagicFx | backend/db_pdf_processor.py:1020-1345 | the extractor's statements compute `MagicFxData` of the pages |
| MagicFxProps.TableRecordNumbered | backend/db_pdf_processor.py:1075 | table record k is line k + 1 of the order, keyed `po/k+1`, with the row's description, the order date and no purchaser (also lines 1141-1163) |
| MagicFxProps.TableKeysDistinct | backend/db_pdf_processor.py:1145-1163 | no two records of one table share a `po_line` key |
| MagicFxProps.TableDataBound | backend/db_pdf_processor.py:1073-1163 | without a header row the table gives nothing; otherwise at most one record per row after the header |
| MagicFxProps.TextRecordNumbered | backend/db_pdf_processor.py:1172 | text record k is line k + 1, with part number `po-NN`, key `po/k+1`, its description, its parsed delivery date, the order date and no purchaser (also lines 1313-1340) |
| MagicFxProps.TextRecordKeys | backend/db_pdf_processor.py:1313-1322 | the `pn` and `po_line` of text record k are those of line k + 1 |
| MagicFxProps.TextKeysDistinct | backend/db_pdf_processor.py:1322-1340 | no two records of the text path share a `po_line` key |
| MagicFxProps.TextPartNumbersDistinct | backend/db_pdf_processor.py:1313 | no two records of the text path share a part number (also line 1340) |
| MagicFxProps.TextDataBound | backend/db_pdf_processor.py:1175-1342 | the text path yields at most one record per line of the page |
| MagicFxProps.TextItemsNoHeader | backend/db_pdf_processor.py:1183-1190 | a text without a "Code"/"Description" header line gives no records |
| MagicFxProps.TextItemSource | backend/db_pdf_processor.py:1183-1298 | every text item starts at a line with two item codes below a header line, and has a date and a whole quantity |
| Store.CountWhere | backend/models/database.py:243 | the number of rows a `WHERE` selects (`cursor.rowcount`) is at most the table's size, and is 0 iff no row is selected (also line 353) |
| Store.FirstWhere | backend/models/database.py:202-204 | `fetchone()` of a `LIMIT 1` query gives the first selected row, or nothing iff no row is selected |
| Store.UpdateWhere | backend/models/database.py:236-242 | an `UPDATE` keeps the number of rows |
| Store.DeleteWhere | backend/models/database.py:348-353 | a `DELETE` keeps exactly the unselected rows, so the table shrinks by the number selected |
| Store.FullRow | backend/controllers/shipment_controller.py:69-81 | `SELECT *` yields a row with exactly the table's columns |
| Store.UpdatePart | backend/models/database.py:433-447 | `ON CONFLICT (po_line) DO UPDATE SET` never assigns the key column |
| Store.UpsertExisting | backend/models/database.py:439-448 | an upsert onto an existing key overwrites every named non-key column of that row and leaves its other columns and all other rows alone |
| Store.UpsertNew | backend/models/database.py:439-442 | an upsert of a new key appends the row |
| Store.UpsertKeys | backend/models/database.py:428-448 | an upsert adds its key to the table's keys and keeps the key unique |
| Insert.PresentColumns | backend/db_pdf_processor.py:553-560 | the non-WF inserts name only the columns whose value is not None (also lines 1380-1396) |
| Insert.EntryKey | backend/db_pdf_processor.py:481-485 | every insert keys its entry on `po_line`, NULL when the record has none (also lines 577-580, 1413-1416) |
| Insert.InsertBatch | backend/db_pdf_processor.py:457-502 | the corrected reading, each refused statement undone on its own: every entry counts once, as a success or as an error, and the table keeps its columns (also lines 530-591, 1358-1427) |
| Insert.InsertEntries | backend/db_pdf_processor.py:446-506 | the batch loop and `connection.commit()`: the result is `success_count` and the table is what `CommitAsWritten` leaves, the pending rows or, after a failed statement, the table as it was; a missing table gives 0 and no change |
| Insert.InsertLoop | backend/db_pdf_processor.py:457-502 | the `for entry in data_entries` loop ends in the transaction `BatchAsWritten` gives: pending rows, the abort flag and the two counters |
| Insert.InsertEntry | backend/db_pdf_processor.py:458-502 | one entry is rejected by the check, stored by the upsert, refused by the database (which aborts the transaction), or counted as an error because the transaction is already aborted, exactly as `StepAsWritten` says |
| Insert.InsertWfOpenData | backend/db_pdf_processor.py:446-517 | `insert_wf_open_data` on the wf_open table, as `InsertEntries` |
| Insert.InsertNonWfOpenData | backend/db_pdf_processor.py:519-603 | `insert_non_wf_open_data` on the non_wf_open table, as `InsertEntries` |
| Insert.InsertMagicFxData | backend/db_pdf_processor.py:1347-1439 | `insert_non_wf_open_magic_fx_data` on the non_wf_open table, as `InsertEntries` |
| Insert.BatchAsWritten | backend/db_pdf_processor.py:457-502 | inside the one transaction every entry counts once, as a success or as an error, and the pending table keeps its columns |
| Insert.CleanRun | backend/db_pdf_processor.py:457-502 | the run of entries before the first one that passes the check but whose statement is refused: none of them is refused, and the entry right after it is |
| Insert.AbortedIffRefused | backend/db_pdf_processor.py:457-502 | the transaction ends aborted iff some entry passes the check but has its statement refused |
| Insert.CommitCount | backend/db_pdf_processor.py:457-506 | the returned `success_count` is the number of accepted entries before the first refused one; sound entries after it count as errors |
| Insert.LiveIsIsolated | backend/db_pdf_processor.py:457-502 | while no statement has failed, the transaction holds the rows and the success count of the corrected reading |
| Insert.CommitTable | backend/db_pdf_processor.py:457-506 | with no entry refused, the commit stores the corrected batch, `po_line` stays unique and the keys gain those of the accepted entries; with one refused it leaves the table as it was |
| Insert.BatchSuccesses | backend/db_pdf_processor.py:457-502 | in the corrected reading, the success count is the number of entries that pass the tolerance check and whose statement runs |
| Insert.MismatchRejected | backend/db_pdf_processor.py:472-476 | an entry with all three amounts and \|qty·net_price − total_price\| > 0.02 leaves the transaction as it was, live or aborted, and counts as an error (also lines 500-502) |
| Insert.MissingAmountAccepted | backend/db_pdf_processor.py:472-499 | an entry missing any of the three amounts skips the check; in a live transaction where its statement runs it is upserted and counted as a success (also lines 545-549) |
| Insert.BatchKeys | backend/db_pdf_processor.py:478-499 | in the corrected reading, the `po_line` key stays unique after a batch, and the keys are the old ones plus those of the accepted entries (also lines 576-585) |
| Insert.NonWfKeepsUnsupplied | backend/db_pdf_processor.py:569-581 | the non-WF upsert leaves a column alone when the entry's value for it is None |
| Insert.WfOverwritesAll | backend/db_pdf_processor.py:485-495 | `insert_wf_open_data` overwrites the non-key columns, writing NULL where the entry has None |
| Insert.AbortedBatchReportsSuccess | backend/db_pdf_processor.py:457-509 | as written: an accepted entry followed by an entry without `po_line` reports one success, yet the table is unchanged |
| Insert.IsolatedBatchStoresFirst | backend/db_pdf_processor.py:457-509 | with each failed statement undone on its own, the same batch stores the first entry and counts it once |
| Manager.Duplicates | backend/models/database.py:568-590 | there are never more duplicates than items |
| Manager.CheckDuplicates | backend/models/database.py:541-598 | the check fails (raises) iff the table or its key column is missing and some item has a truthy key; otherwise it returns `Duplicates` of the table's rows |
| Manager.DuplicatesExactly | backend/models/database.py:568-590 | an item is reported iff it is in the list, its key is truthy and already in the table, with that key as `primary_key` |
| Manager.FalsyKeySkipped | backend/models/database.py:571-573 | an item with a missing or falsy key is never reported |
| Manager.CleanValue | backend/models/database.py:422-425 | no cleaned value is 'None', 'nan' or '', and a value is changed only when it is one of them, into NULL |
| Manager.CleanedRow | backend/models/database.py:415-425 | the cleaned row has exactly the input keys that are columns of the table, each with its cleaned value |
| Manager.CleanRow | backend/models/database.py:416-425 | the cleaning loop computes `CleanedRow` |
| Manager.InsertOutcome | backend/models/database.py:427-463 | the insert succeeds iff there is something to insert and, for an open table, the `po_line` key is not NULL; the columns are kept |
| Manager.InsertedTables | backend/models/database.py:386-490 | a successful insert needs the table, changes only that table, and keeps its columns |
| Manager.InsertRow | backend/models/database.py:386-490 | `insert_row` reports success iff `InsertedTables` succeeds, and changes the tables only then |
| Manager.InsertOpenKeys | backend/models/database.py:428-448 | an upsert into an open table keeps `po_line` unique and adds the new key |
| Manager.UpdateValue | backend/models/database.py:218-231 | a value becomes NULL iff it is None, 'None' or 'nan', or it is '' in a date column; otherwise it is kept |
| Manager.EmptyTextOnUpdate | backend/models/database.py:221-231 | '' becomes NULL in a date column and is kept in any other column |
| Manager.NormalizeUpdates | backend/models/database.py:216-231 | the value loop assigns every named column its normalised value |
| Manager.KeyClause | backend/models/database.py:195-213 | the resolved key is a single `column = value` test |
| Manager.OpenKeyFromPn | backend/models/database.py:199-207 | in an open table, a `pn` that a row holds resolves to the `po_line` of the first such row |
| Manager.OpenKeyUnknownPn | backend/models/database.py:208-210 | in an open table, a `pn` that no row holds selects nothing |
| Manager.UpdateRow | backend/models/database.py:175-288 | `update_row` succeeds iff the statement runs (the key column and every assigned column exist, and on wf_open and non_wf_open the updated rows keep `po_line` non-NULL and unique) and selects at least one row; the selected rows take the normalised values, and nothing changes otherwise |
| Manager.NullKeyUpdateRefused | backend/models/database.py:280-288 | an update that writes NULL (None, 'None' or 'nan') into the `po_line` of a selected row of an open table is refused by the primary key |
| Manager.DuplicateKeyUpdateRefused | backend/models/database.py:280-288 | an update that gives a selected row the `po_line` of a row it leaves alone is refused by the primary key |
| Manager.UpdateWithoutKeyKeepsKeys | backend/models/database.py:236-243 | an update that does not assign `po_line` keeps a valid primary key, so the key never refuses it |
| Manager.UpdateNothingSelected | backend/models/database.py:276-279 | an update that selects nothing leaves the rows as they were |
| Manager.UpdateWhereRows | backend/models/database.py:236-242 | after an update, a selected row has each new value and an unselected row is unchanged |
| Manager.DeleteRow | backend/models/database.py:290-384 | `delete_row` succeeds iff the key column exists and at least one row is selected; the selected rows are removed |
| Enhanced.StrLessAsymmetric | backend/enhanced_db_manager.py:53 | Python's string order, which `sorted` uses on the column names, is asymmetric |
| Enhanced.StrLessTotal | backend/enhanced_db_manager.py:53 | the string order is total |
| Enhanced.StrLessTransitive | backend/enhanced_db_manager.py:53 | the string order is transitive |
| Enhanced.InsertPair | backend/enhanced_db_manager.py:53 | inserting one item into the sorted list adds exactly that item |
| Enhanced.SortPairs | backend/enhanced_db_manager.py:53 | `sorted(row_data.items())` is a permutation of the items |
| Enhanced.InsertPairSorted | backend/enhanced_db_manager.py:53 | inserting an item with a new column name keeps the list sorted |
| Enhanced.SortPairsSorted | backend/enhanced_db_manager.py:53 | items with distinct column names come out sorted by name |
| Enhanced.SortedUnique | backend/enhanced_db_manager.py:53 | two sorted permutations of the same items are equal |
| Enhanced.HashOrderInsensitive | backend/enhanced_db_manager.py:50-54 | the row hash depends only on the set of (column, value) pairs, not their order |
| Enhanced.CursorRow | backend/enhanced_db_manager.py:96-98 | the row dictionary has one item per selected column (also lines 194-196) |
| Enhanced.VersionedUpdate | backend/enhanced_db_manager.py:86-146 | the update is refused as stale iff the key column exists and the first stored row's hash differs from the expected one; it runs iff the row is fresh and the statement is valid, with the primary key of an open table kept, and affects as many rows as the key selects |
| Enhanced.NullKeyVersionedRefused | backend/enhanced_db_manager.py:147-153 | even for a fresh row, an update that writes NULL into an open table's `po_line` does not run |
| Enhanced.VersionedDelete | backend/enhanced_db_manager.py:184-220 | the delete is refused as stale iff the key column exists and the stored row's hash differs; otherwise it removes as many rows as the key selects |
| Enhanced.UpdateRowWithVersion | backend/enhanced_db_manager.py:56-153 | the update succeeds iff it runs (the primary key of an open table included) and affects at least one row, and only then do the selected rows take the normalised values |
| Enhanced.DeleteRowWithVersion | backend/enhanced_db_manager.py:155-227 | the delete succeeds iff it runs and affects at least one row, and only then are the selected rows removed |
| Enhanced.StaleRowRefused | backend/enhanced_db_manager.py:94-106 | when the current row's hash differs from the expected hash, both the update and the delete are refused as stale (also lines 192-204) |
| Enhanced.CurrentHashDeletes | backend/enhanced_db_manager.py:184-220 | a delete given the current row's own hash removes at least one row |
| Enhanced.NonWfOpenNeedsId | backend/enhanced_db_manager.py:77 | for non_wf_open the key is `id`, so without an `id` column both operations fail (also lines 80-84, 175-182) |
| Enhanced.KeyFieldsAgree | backend/enhanced_db_manager.py:76-84 | the versioned operations key a table as `check_duplicates` of the other manager does except for non_wf_open, and key by `pn` exactly the two closed tables |
| Enhanced.CleanedAll | backend/enhanced_db_manager.py:248-253 | every input key is kept, with 'None', 'nan' and '' replaced by NULL |
| Enhanced.CleanAll | backend/enhanced_db_manager.py:248-253 | the cleaning loop computes `CleanedAll` |
| Enhanced.CleaningsAgree | backend/enhanced_db_manager.py:248-253 | when every key is a column, this cleaning agrees with the one in `backend/models/database.py` |
| Enhanced.PlainInsert | backend/enhanced_db_manager.py:255-275 | a successful insert appends the cleaned row, which names only existing columns; for an open table its `po_line` is non-NULL and new |
| Enhanced.InsertRow | backend/enhanced_db_manager.py:229-282 | the insert succeeds iff `PlainInsert` does, and changes the table only then |
| Enhanced.PlainInsertKeys | backend/enhanced_db_manager.py:255-266 | an insert into an open table keeps `po_line` unique and adds the new key |
| Enhanced.UnknownColumnRefused | backend/enhanced_db_manager.py:255-266 | a key that is not a column of the table makes the insert fail |
| Shipment.TargetTable | backend/controllers/shipment_controller.py:58 | wf_open ships to wf_closed, anything else to non_wf_closed; the target is always a closed table |
| Shipment.ClosedRecord | backend/controllers/shipment_controller.py:87-93 | the closed record is the open one with qty set to the shipped quantity, and total_price recomputed only when net_price > 0; every other field is copied |
| Shipment.Restrict | backend/controllers/shipment_controller.py:111-115 | the filtered record has exactly the fields that are closed-table columns, with their values |
| Shipment.FilterRecord | backend/controllers/shipment_controller.py:112-115 | the filter loop computes `Restrict` |
| Shipment.Ship | backend/controllers/shipment_controller.py:28-199 | the request is refused unless the source is an open table and 0 < qty ≤ max; a success needs both tables and a matching item, reports `remaining_qty` (0 for a full shipment, max − qty otherwise) and keeps the set of tables |
| Shipment.ShipRow | backend/controllers/shipment_controller.py:80-199 | moving item `i` needs the target table, keeps the set of tables and reports the remaining quantity |
| Shipment.ProcessShipment | backend/controllers/shipment_controller.py:28-209 | `process_shipment` succeeds iff `Ship` does, returns its remaining quantity, and changes the tables only on success |
| Shipment.MoveRecord | backend/controllers/shipment_controller.py:80-163 | the insert and the delete or update of one found item compute `ShipRow` |
| Shipment.FirstSelectedIs | backend/controllers/shipment_controller.py:73 | `fetchone()` returns the first row the selection holds for |
| Shipment.ShipAppendsClosedCopy | backend/controllers/shipment_controller.py:117-129 | a shipment appends the filtered closed copy of the found item to the target table |
| Shipment.FullShipmentRemovesItem | backend/controllers/shipment_controller.py:84 | a full shipment removes every row the selection holds for, keeps the others, and reports 0 remaining (also lines 132-144, 198) |
| Shipment.PartShipmentLowersQty | backend/controllers/shipment_controller.py:145-161 | a partial shipment sets qty = max − shipped on the selected rows, leaves the others alone, and reports max − shipped remaining (also line 198) |
| Shipment.ClosedCopyFields | backend/controllers/shipment_controller.py:87-115 | the closed copy has only closed-table columns, carries the shipped quantity, and copies the item's other shared columns |
| Importer.Companies | backend/pdf_import_processor.py:35-43 | the companies are config keys that are not reserved, never more than the keys |
| Importer.CompaniesComplete | backend/pdf_import_processor.py:39-42 | every config key other than 'currency_mapping' and 'date_formats' is listed |
| Importer.GetAvailableCompanies | backend/pdf_import_processor.py:35-43 | the loop computes `Companies` of the config keys, in order |
| Importer.TableFor | backend/pdf_import_processor.py:102-105 | the target table is always an open table |
| Importer.ProcessPdfByCompany | backend/pdf_import_processor.py:65-68 | a company missing from the config raises (None) |
| Importer.CenturionDispatch | backend/pdf_import_processor.py:70-88 | the Centurion extractor is used iff the company is 'centurion' or starts with 'generic_non_wf'; every other company goes to the Wefabricate extractor |
| Importer.GenericWfPrefixes | backend/pdf_import_processor.py:77-84 | a name starting with 'generic_wf' never starts with 'generic_non_wf', so the two branches do not overlap |
| Importer.GenericNonWfRouting | backend/pdf_import_processor.py:81-105 | a 'generic_non_wf' company is read by the Centurion extractor into non_wf_open |
| Importer.CenturionOrdersStoredNonWf | backend/pdf_import_processor.py:70-88 | every company whose PDFs go to the Centurion extractor has its records stored in non_wf_open (also lines 103-105) |
| Importer.NonWfNameMismatch | backend/pdf_import_processor.py:85-105 | any other company whose name contains 'non_wf' is read by the Wefabricate extractor yet routed to non_wf_open |
| Importer.ProcessPdfWithDuplicateCheck | backend/pdf_import_processor.py:90-133 | an extraction error gives an error result and empty data gives "no data", with no duplicate check; otherwise the result carries the data, its target table, and the duplicates found there, or none when the check fails |
| Importer.InsertAll | backend/pdf_import_processor.py:145-157 | the count of successful inserts is at most the number of entries, and the set of tables is kept |
| Importer.InsertDataWithCheck | backend/pdf_import_processor.py:135-162 | the loop's count and final tables are those of `InsertAll`, and 0 ≤ count ≤ the number of entries |
| Importer.InsertAllKeysUnique | backend/pdf_import_processor.py:145-150 | inserting a list into an open table keeps `po_line` unique |
| Importer.InsertAllMissingTable | backend/pdf_import_processor.py:145-157 | a missing table gives count 0 and no change |
| Importer.Gather | backend/pdf_import_processor.py:164-187 | success_count + error_count equals the number of files |
| Importer.ProcessMultiplePdfs | backend/pdf_import_processor.py:164-187 | the loop computes `Gather`, so the two counts add up to the number of files |
| Importer.GatherIsConcatenation | backend/pdf_import_processor.py:170-176 | the data is the in-order concatenation of each file's rows |
| Importer.GatherUnknownCompany | backend/pdf_import_processor.py:67-68 | for a company missing from the config every file is an error and no data is gathered (also lines 179-181) |
| Users.FindEmail | backend/models/user_model.py:89-94 | the index found is the first user with that email; none is found exactly when the email is not taken |
| Users.Register | backend/models/user_model.py:75-116 | registration succeeds iff the email ends with "@wefabricate.com" and is not yet taken; on success exactly one unverified user is appended, carrying the token and an expiry 86400 s after now |
| Users.FindToken | backend/models/user_model.py:128-138 | the index found is the first unverified user holding the token; none is found exactly when no unverified user holds it |
| Users.Verify | backend/models/user_model.py:118-155 | a verified account names an unverified user with that token whose expiry is not before now, and carries that user's id and email |
| Users.SetPasswordAsWritten | backend/models/user_model.py:157-191 | as written the update succeeds exactly when the id exists, verified or not; it stores the password hash, marks the user verified, clears token and expiry, and leaves every other user unchanged |
| Users.SetPassword | backend/models/user_model.py:157-191 | the corrected reading: the update succeeds iff the id exists and the user is not yet verified; it stores the password hash, marks the user verified, clears token and expiry, and leaves every other user unchanged |
| Users.Authenticate | backend/models/user_model.py:193-236 | an account is returned only for a verified user with that email whose stored hash is the SHA-256 of the password; an unknown email is always refused |
| Users.UserStore.constructor | backend/models/user_model.py:22-59 | the users table starts empty, with emails unique as its UNIQUE constraint demands |
| Users.UserStore.RegisterUser | backend/models/user_model.py:75-116 | the store changes exactly as `Register` says, keeps its emails unique, and reports success iff `Register` succeeds |
| Users.UserStore.VerifyUser | backend/models/user_model.py:118-155 | the lookup returns what `Verify` returns and changes nothing |
| Users.UserStore.SetUserPassword | backend/models/user_model.py:157-191 | as written: succeeds iff the id exists, verified or not, the store changes exactly as `SetPasswordAsWritten` says, and its emails stay unique |
| Users.UserStore.AuthenticateUser | backend/models/user_model.py:193-236 | the login returns what `Authenticate` returns and changes nothing |
| Users.RegisterKeepsEmailsUnique | backend/models/user_model.py:89-105 | registration preserves the uniqueness of emails |
| Users.NewUserCannotAuthenticate | backend/models/user_model.py:101-105 | a freshly registered user cannot log in before setting a password (also lines 218-221) |
| Users.VerifyWithinLifetime | backend/models/user_model.py:98 | a fresh token verifies to the new user's account at any time up to 86400 s after registration and is refused afterwards (also lines 143-151) |
| Users.SetPasswordAsWrittenThenAuthenticate | backend/models/user_model.py:170-175 | as written, after setting a password for any existing id the user logs in with it, and its token no longer verifies (also lines 224-232) |
| Users.SetPasswordThenAuthenticate | backend/models/user_model.py:170-175 | in the corrected reading, after setting a password the user logs in with it, and its token no longer verifies (also lines 224-232) |
| Users.AccountLifecycle | backend/models/user_model.py:75-236 | register, verify within the lifetime, set a password, log in: every step succeeds and the login yields the new account |
| Users.AsWrittenResetsVerifiedUser | backend/models/user_model.py:170-180 | as written an already verified user's password is overwritten, which the corrected update refuses |
| Users.VerifiedPasswordStays | backend/models/user_model.py:177-180 | with the corrected update, a verified user who can log in cannot have the password replaced through this path |

## Left out

- PDF reading with pdfplumber (`extract_text`, `extract_tables`): the pages' text and tables are given values, and opening a file is not modelled.
- PostgreSQL through psycopg2: connections, cursors, SQL text, `information_schema` lookups, `rollback` and the transaction of each request beyond the one-transaction batch of `Insert`, and column type errors. A table is a column list plus a sequence of rows; `SERIAL` ids of the closed tables and of `users` are the row position, so an update that assigns `id` is not checked against that key. The `po_line` primary key of wf_open and non_wf_open is modelled on inserts, upserts and updates.
- Logging: every `print`, the `operation_logger` calls, and the `user_email` arguments that only feed them.
- Floating point: `float` division in `parse_eur_price`, its `.10f` formatting with trailing zeros stripped, and `round(…, 2)` in `process_shipment`. Every number is an exact `real`, and a priced result is a pair of reals instead of the two "€…" strings. Python's `Decimal` arithmetic, such as the product `qty * net_price` of the 0.02 tolerance check (`backend/db_pdf_processor.py` lines 472-476), rounds to 28 significant digits, and the model computes it exactly.
- Column scale: `qty` and `total_price` are `DECIMAL(10, 2)` and `net_price` is `DECIMAL(10, 4)` in every order table (`init_db.py`). PostgreSQL rounds a stored value to that scale and refuses one with too many integer digits. The model stores the exact value the statement names, so `Insert.WfOverwritesAll`, `Insert.NonWfKeepsUnsupplied`, `Store.UpsertExisting`, `Manager.UpdateRow` and `Shipment.PartShipmentLowersQty` state the value before that rounding, and the overflow error is not modelled.
- Numeric.WfParseEurPrice: the `.4f` and `.2f` formats of the local copy are modelled as rounding the exact quotient half to even. Python rounds the binary `float` instead, so a quotient that lies exactly halfway in decimal may round the other way.
- Numeric.ParseDecimal: for both copies of `parse_decimal` (`backend/db_pdf_processor.py` lines 105-117 and 735-748), the model reads an optionally signed numeral `d`, `d.`, `d.d` or `.d` after deleting €, $, £ and commas, and returns None for anything else. Python's `Decimal` also accepts "NaN", "sNaN", "Infinity", "Inf", exponents such as "1e3" and underscores between digits. `Numeric.NoDigitNoParse` and `WefabricateRows.NetValueWithoutDigits` hold within that grammar only: `Decimal` reads the digit-free "NaN" and "Infinity".
- Character classes: `IsDigit`, `IsSpace` and `IsLetter` are ASCII. Python's `\d`, `\s`, `str.isdigit`, `strip()` and `split()` also accept other Unicode digits and spaces (such as U+00A0, the no-break space), which the model treats as ordinary characters.
- `parse_date` and `datetime.strptime`: an oracle from text to an optional date. `datetime.now()` is a parameter.
- MD5 of `str(dict)`, SHA-256 and `secrets.token_urlsafe`: functions or values passed in. The model assumes nothing about them beyond being functions, so the row hash is stated through its sorted input.
- The MAGIC FX regular expressions of `parse_magic_fx_line`: an oracle (`MagicFxBlock.BlockMatch`) that returns the groups. Only what the code does with the groups is modelled. The regular expressions of the text fallback and of the table path are written out as search functions in `MagicFxPatterns`.
- `query_table`, `get_all_tables` and `add_dynamic_columns` of `backend/models/database.py`, and `query_table` of `backend/enhanced_db_manager.py`: reading and schema changes outside the mutations modelled here.
- `load_mapping_config`, `save_mapping_config`, `add_company_mapping` and `save_uploaded_file` of `backend/pdf_import_processor.py`: file I/O. The configuration is a given sequence of company names.
- `create_users_table` and `generate_verification_token`: schema setup and randomness. The constructor starts from an empty table, and the token is a parameter.
- Flask routes, JWT, e-mail sending and the Streamlit UI are not part of this model.
- Centurion `req_date`: the source leaves an empty string when a line has no date, and the model writes None. The database would reject the string as a `DATE`, and that failure is not modelled.
- A Wefabricate schedule marker whose date row is on the next page produces no schedule element (`WefabricateRows.MarkerOnLastRow`). The Centurion `po_line` uses the line number as printed, leading zeros included.
- Importer.TableFor: its contract says only that the target is an open table. Which table a company's orders reach is stated by the routing lemmas `Importer.GenericNonWfRouting`, `Importer.CenturionOrdersStoredNonWf` and `Importer.NonWfNameMismatch`.
- Users.Verify: its contract states when a returned account is sound. That a fresh token does verify within its lifetime is stated by `Users.VerifyWithinLifetime`.

## Findings

| source | as written | input that shows it | evidently intended | confidence | as-written member | corrected member |
|---|---|---|---|---|---|---|
| backend/db_pdf_processor.py:1114 | `re.sub(r'\s*(pc\|pcs)?\s*', '', qty, flags=re.IGNORECASE)` tries `pc` before `pcs`, so the trailing `s` stays | the quantity cell "10 pcs" becomes "10s", `parse_decimal` rejects it, and the row has no quantity | remove the whole unit, so that "10 pcs" reads as 10 | not executed | MagicFxLines.ScrubAsWrittenKeepsS | MagicFxLines.ScrubUnitQuantity |
| backend/db_pdf_processor.py:457-509 | after one statement fails, each later statement runs in an aborted PostgreSQL transaction; `commit()` then rolls every row back, yet `success_count` is still returned | an accepted entry followed by an entry whose `po_line` is None (the primary key) | count only what is stored; undo a failed statement on its own (a savepoint per entry) so that earlier rows survive | not executed | Insert.AbortedBatchReportsSuccess | Insert.IsolatedBatchStoresFirst |
| backend/models/user_model.py:170-180 | the `UPDATE` matches `WHERE id = %s` only, so it also succeeds for a verified user, although the failure message says "does not exist or already verified" | an already verified user id sent to `/set-password` with a new password: the stored password is replaced without any login | also require `is_verified = FALSE`, so that a verified user's password cannot be replaced this way | not executed | Users.AsWrittenResetsVerifiedUser | Users.VerifiedPasswordStays |

The insert methods, the MAGIC FX table path and `Users.UserStore.SetUserPassword` follow the code as written. `Insert.InsertBatch`, `MagicFxPatterns.ScrubUnit` and `Users.SetPassword` are the corrected readings; the lemmas compare them with the code (`Insert.LiveIsIsolated`, `Insert.CommitTable`, `MagicFxLines.ScrubAgree`, `Users.AsWrittenResetsVerifiedUser`).
