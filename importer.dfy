/**
 * `PDFImportProcessor` of backend/pdf_import_processor.py: the company list
 * of the mapping configuration, the choice of extractor and target table
 * per company, and the import loops that count successes and failures. The
 * configuration is given by its keys in file order; the extractors are a
 * parameter that yields the extracted dictionaries, or None when the
 * extractor raises.
 */
module Importer {
  import opened Wrappers
  import opened Text
  import opened Store
  import opened Manager

  /** The configuration keys that are not companies. */
  predicate Reserved(key: string) {
    key == "currency_mapping" || key == "date_formats"
  }

  /** The companies of the configuration, in order. */
  function Companies(configKeys: seq<string>): (cs: seq<string>)
    ensures |cs| <= |configKeys|
    ensures forall c :: c in cs ==> c in configKeys && !Reserved(c)
    decreases |configKeys|
  {
    if configKeys == [] then []
    else
      var init := configKeys[..|configKeys| - 1];
      var last := configKeys[|configKeys| - 1];
      Companies(init) + (if Reserved(last) then [] else [last])
  }

  /** Every key that is not reserved is listed. */
  lemma {:induction false} CompaniesComplete(configKeys: seq<string>, c: string)
    requires c in configKeys && !Reserved(c)
    ensures c in Companies(configKeys)
    decreases |configKeys|
  {
    var init := configKeys[..|configKeys| - 1];
    if c != configKeys[|configKeys| - 1] {
      assert configKeys == init + [configKeys[|configKeys| - 1]];
      CompaniesComplete(init, c);
    }
  }

  /** `get_available_companies`. */
  method GetAvailableCompanies(configKeys: seq<string>) returns (companies: seq<string>)
    ensures companies == Companies(configKeys)
  {
    companies := [];
    var i: nat := 0;
    while i < |configKeys|
      invariant i <= |configKeys|
      invariant companies == Companies(configKeys[..i])
    {
      assert configKeys[..i + 1][..i] == configKeys[..i];
      if !Reserved(configKeys[i]) {
        companies := companies + [configKeys[i]];
      }
      i := i + 1;
    }
    assert configKeys[..|configKeys|] == configKeys;
  }

  // ---------------------------------------------------------------------------
  // Routing

  /** The two extractors of db_pdf_processor.py. */
  datatype Extractor = WefabricateExtractor | CenturionExtractor

  /** The extractor `process_pdf_by_company` calls for a company it knows. */
  function ExtractorFor(company: string): Extractor {
    if company == "wefabricate" then WefabricateExtractor
    else if company == "centurion" then CenturionExtractor
    else if StartsWith(company, "generic_wf") then WefabricateExtractor
    else if StartsWith(company, "generic_non_wf") then CenturionExtractor
    else WefabricateExtractor
  }

  /** The table `process_pdf_with_duplicate_check` targets. */
  function TableFor(company: string): (name: string)
    ensures IsOpenTable(name)
  {
    if company == "centurion" || Contains(company, "non_wf") then "non_wf_open" else "wf_open"
  }

  /** A result of an extractor: the dictionaries it returns, or None when it raises. */
  type Extract = (Extractor, string) -> Option<seq<Row>>

  /** `process_pdf_by_company`: None when it raises, for an unknown company or from the extractor. */
  function ProcessPdfByCompany(configKeys: seq<string>, pdfPath: string, company: string, extract: Extract)
    : (r: Option<seq<Row>>)
    ensures company !in configKeys ==> r.None?
  {
    if company !in configKeys then None else extract(ExtractorFor(company), pdfPath)
  }

  lemma GenericWfPrefixes(company: string)
    ensures StartsWith(company, "generic_wf") ==> !StartsWith(company, "generic_non_wf")
  {
    if StartsWith(company, "generic_wf") {
      assert company[8] == "generic_wf"[8] == 'w';
      assert |company| < 14 || company[..14][8] != "generic_non_wf"[8];
    }
  }

  /** The Centurion extractor reads exactly 'centurion' and the 'generic_non_wf' names. */
  lemma CenturionDispatch(company: string)
    ensures ExtractorFor(company) == CenturionExtractor <==>
      company == "centurion" || StartsWith(company, "generic_non_wf")
  {
    GenericWfPrefixes(company);
    if company == "wefabricate" {
      assert !StartsWith(company, "generic_non_wf") by { assert |company| < |"generic_non_wf"|; }
    }
  }

  /** Centurion names go to the Centurion extractor and to the non-WF table. */
  lemma GenericNonWfRouting(company: string)
    requires StartsWith(company, "generic_non_wf")
    ensures ExtractorFor(company) == CenturionExtractor && TableFor(company) == "non_wf_open"
  {
    CenturionDispatch(company);
    assert company[8..14] == "non_wf" by {
      assert company[..14] == "generic_non_wf";
      assert company[8..14] == company[..14][8..14];
    }
    ContainsAt(company, "non_wf", 8);
  }

  /** Every order read by the Centurion extractor is stored in the non-WF open table. */
  lemma CenturionOrdersStoredNonWf(company: string)
    requires ExtractorFor(company) == CenturionExtractor
    ensures TableFor(company) == "non_wf_open"
  {
    CenturionDispatch(company);
    if company != "centurion" {
      GenericNonWfRouting(company);
    }
  }

  /** A name with 'non_wf' elsewhere is read as a Wefabricate order yet stored in the non-WF table. */
  lemma NonWfNameMismatch(company: string)
    requires Contains(company, "non_wf") && company != "centurion" && !StartsWith(company, "generic_non_wf")
    ensures ExtractorFor(company) == WefabricateExtractor && TableFor(company) == "non_wf_open"
  {
    CenturionDispatch(company);
  }

  // ---------------------------------------------------------------------------
  // process_pdf_with_duplicate_check

  /** The answer for one PDF: an error, nothing extracted, or the data with its duplicates and table. */
  datatype PdfResult = PdfError | NoData | Imported(data: seq<Row>, duplicates: seq<Duplicate>, tableName: string)

  /** What the importer's `check_duplicates` returns: the manager's answer, or [] when that raises. */
  function DuplicatesOrNone(tables: map<string, Table>, name: string, data: seq<Row>): seq<Duplicate> {
    if CountFails(tables, name) && exists i :: 0 <= i < |data| && !Falsy(Get(data[i], DuplicateKeyField(name))) then []
    else Duplicates(RowsOf(tables, name), DuplicateKeyField(name), data)
  }

  /** `process_pdf_with_duplicate_check`: nothing is written; only a non-empty extraction is checked for duplicates. */
  method ProcessPdfWithDuplicateCheck(db: Database, configKeys: seq<string>, pdfPath: string, company: string,
                                      extract: Extract) returns (r: PdfResult)
    ensures r.PdfError? <==> ProcessPdfByCompany(configKeys, pdfPath, company, extract).None?
    ensures r.NoData? <==> ProcessPdfByCompany(configKeys, pdfPath, company, extract) == Some([])
    ensures r.Imported? ==> Some(r.data) == ProcessPdfByCompany(configKeys, pdfPath, company, extract) && r.data != []
    ensures r.Imported? ==> r.tableName == TableFor(company)
    ensures r.Imported? ==> r.duplicates == DuplicatesOrNone(db.tables, TableFor(company), r.data)
  {
    var extracted := ProcessPdfByCompany(configKeys, pdfPath, company, extract);
    if extracted.None? {
      return PdfError;
    }
    var data := extracted.value;
    if data == [] {
      return NoData;
    }
    var tableName := TableFor(company);
    var checked := CheckDuplicates(db, tableName, data);
    var duplicates := if checked.Some? then checked.value else [];
    return Imported(data, duplicates, tableName);
  }

  // ---------------------------------------------------------------------------
  // insert_data_with_check

  /** The tables after inserting entries one by one, each insert committing on its own, and the successes. */
  datatype Inserted = Inserted(count: nat, tables: map<string, Table>)

  function InsertAll(tables: map<string, Table>, name: string, dataList: seq<Row>): (r: Inserted)
    ensures r.count <= |dataList|
    ensures r.tables.Keys == tables.Keys
    decreases |dataList|
  {
    if dataList == [] then Inserted(0, tables)
    else
      var prev := InsertAll(tables, name, dataList[..|dataList| - 1]);
      match InsertedTables(prev.tables, name, dataList[|dataList| - 1])
      case None => prev
      case Some(t) => Inserted(prev.count + 1, t)
  }

  /** `insert_data_with_check`: `count` is the number of entries `insert_row` accepted. */
  method InsertDataWithCheck(db: Database, name: string, dataList: seq<Row>) returns (count: nat)
    modifies db
    ensures Inserted(count, db.tables) == InsertAll(old(db.tables), name, dataList)
    ensures count <= |dataList|
  {
    count := 0;
    var i: nat := 0;
    while i < |dataList|
      invariant i <= |dataList|
      invariant Inserted(count, db.tables) == InsertAll(old(db.tables), name, dataList[..i])
    {
      InsertAllStep(old(db.tables), name, dataList, i);
      var ok := InsertRow(db, name, dataList[i]);
      if ok {
        count := count + 1;
      }
      i := i + 1;
    }
    assert dataList[..|dataList|] == dataList;
  }

  /** One more entry: `InsertAll` of a longer prefix is one more `insert_row` on the shorter one. */
  lemma InsertAllStep(tables: map<string, Table>, name: string, dataList: seq<Row>, i: nat)
    requires i < |dataList|
    ensures var prev := InsertAll(tables, name, dataList[..i]);
      var r := InsertedTables(prev.tables, name, dataList[i]);
      && (r.None? ==> InsertAll(tables, name, dataList[..i + 1]) == prev)
      && (r.Some? ==> InsertAll(tables, name, dataList[..i + 1]).count == prev.count + 1)
      && (r.Some? ==> InsertAll(tables, name, dataList[..i + 1]).tables == r.value)
  {
    assert dataList[..i + 1][..i] == dataList[..i];
  }

  /** Importing into an open table keeps `po_line` its primary key. */
  lemma {:induction false} InsertAllKeysUnique(tables: map<string, Table>, name: string, dataList: seq<Row>)
    requires IsOpenTable(name) && name in tables && KeysUnique(tables[name].rows)
    ensures KeysUnique(InsertAll(tables, name, dataList).tables[name].rows)
    decreases |dataList|
  {
    if dataList != [] {
      var init := dataList[..|dataList| - 1];
      InsertAllKeysUnique(tables, name, init);
      var prev := InsertAll(tables, name, init);
      var data := dataList[|dataList| - 1];
      if InsertedTables(prev.tables, name, data).Some? {
        InsertOpenKeys(name, prev.tables[name], CleanedRow(data, prev.tables[name].columns));
      }
    }
  }

  /** Entries for a table that does not exist all fail and change nothing. */
  lemma {:induction false} InsertAllMissingTable(tables: map<string, Table>, name: string, dataList: seq<Row>)
    requires name !in tables
    ensures InsertAll(tables, name, dataList) == Inserted(0, tables)
    decreases |dataList|
  {
    if dataList != [] {
      InsertAllMissingTable(tables, name, dataList[..|dataList| - 1]);
    }
  }

  // ---------------------------------------------------------------------------
  // process_multiple_pdfs

  /** All data extracted from the files in order, the files that gave data and the files that did not. */
  datatype Gathered = Gathered(data: seq<Row>, successCount: nat, errorCount: nat)

  /** What one file contributes: its rows, when the extractor returns a non-empty list. */
  function FileRows(configKeys: seq<string>, pdfPath: string, company: string, extract: Extract): seq<Row> {
    match ProcessPdfByCompany(configKeys, pdfPath, company, extract)
    case Some(d) => d
    case None => []
  }

  function Gather(configKeys: seq<string>, pdfFiles: seq<string>, company: string, extract: Extract): (g: Gathered)
    ensures g.successCount + g.errorCount == |pdfFiles|
    decreases |pdfFiles|
  {
    if pdfFiles == [] then Gathered([], 0, 0)
    else
      var prev := Gather(configKeys, pdfFiles[..|pdfFiles| - 1], company, extract);
      var rows := FileRows(configKeys, pdfFiles[|pdfFiles| - 1], company, extract);
      if rows != [] then Gathered(prev.data + rows, prev.successCount + 1, prev.errorCount)
      else Gathered(prev.data, prev.successCount, prev.errorCount + 1)
  }

  /** `process_multiple_pdfs`: one count per file, and the non-empty results concatenated in file order. */
  method ProcessMultiplePdfs(configKeys: seq<string>, pdfFiles: seq<string>, company: string, extract: Extract)
    returns (allData: seq<Row>, successCount: nat, errorCount: nat)
    ensures Gathered(allData, successCount, errorCount) == Gather(configKeys, pdfFiles, company, extract)
    ensures successCount + errorCount == |pdfFiles|
  {
    allData, successCount, errorCount := [], 0, 0;
    var i: nat := 0;
    while i < |pdfFiles|
      invariant i <= |pdfFiles|
      invariant Gathered(allData, successCount, errorCount) == Gather(configKeys, pdfFiles[..i], company, extract)
    {
      assert pdfFiles[..i + 1][..i] == pdfFiles[..i];
      var data := ProcessPdfByCompany(configKeys, pdfFiles[i], company, extract);
      if data.Some? && data.value != [] {
        allData := allData + data.value;
        successCount := successCount + 1;
      } else {
        errorCount := errorCount + 1;
      }
      i := i + 1;
    }
    assert pdfFiles[..|pdfFiles|] == pdfFiles;
  }

  /** Flattening of the per-file rows: the independent statement of what the loop gathers. */
  function Flatten(parts: seq<seq<Row>>): seq<Row>
    decreases |parts|
  {
    if parts == [] then [] else Flatten(parts[..|parts| - 1]) + parts[|parts| - 1]
  }

  /** The gathered data is the concatenation of every file's rows, in file order. */
  lemma {:induction false} GatherIsConcatenation(configKeys: seq<string>, pdfFiles: seq<string>, company: string,
                                                 extract: Extract)
    ensures Gather(configKeys, pdfFiles, company, extract).data
      == Flatten(seq(|pdfFiles|, i requires 0 <= i < |pdfFiles| => FileRows(configKeys, pdfFiles[i], company, extract)))
    decreases |pdfFiles|
  {
    var parts := seq(|pdfFiles|, i requires 0 <= i < |pdfFiles| => FileRows(configKeys, pdfFiles[i], company, extract));
    if pdfFiles != [] {
      var init := pdfFiles[..|pdfFiles| - 1];
      GatherIsConcatenation(configKeys, init, company, extract);
      var initParts := seq(|init|, i requires 0 <= i < |init| => FileRows(configKeys, init[i], company, extract));
      assert parts[..|parts| - 1] == initParts;
    }
  }

  /** An unknown company makes every file an error and gathers nothing. */
  lemma {:induction false} GatherUnknownCompany(configKeys: seq<string>, pdfFiles: seq<string>, company: string,
                                                extract: Extract)
    requires company !in configKeys
    ensures Gather(configKeys, pdfFiles, company, extract) == Gathered([], 0, |pdfFiles|)
    decreases |pdfFiles|
  {
    if pdfFiles != [] {
      GatherUnknownCompany(configKeys, pdfFiles[..|pdfFiles| - 1], company, extract);
    }
  }
}
