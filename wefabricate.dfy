/**
 * `extract_wefaricate_data` after the first pass: the page-0 header shared by
 * every page, the elements of all pages in one list sorted by page and row,
 * and the binding of each data row to the first schedule line after it.
 */
module Wefabricate {
  import opened Wrappers
  import opened Numeric
  import opened Keys
  import opened Dates
  import opened Records
  import opened Tables
  import opened WefabricateRows

  /** A page as the PDF reader hands it over: its text and its first table (empty when it has none). */
  datatype Page = Page(text: string, table: Table)

  /** What the first pass keeps of a page (`page_info`). */
  datatype PageInfo = PageInfo(pageNum: nat, header: Header, dataRows: seq<DataRow>, schedules: seq<ScheduleLine>)

  /**
   * The header a page starts with: page 0 reads its own; a later page has no PO number but keeps
   * the date and purchaser read on page 0.
   */
  function PageHeader(pages: seq<Page>, q: nat, parseDate: DateParser): (h: Header)
    requires q < |pages|
    ensures q == 0 ==> h == HeaderOf(pages[0].text, parseDate)
    ensures q > 0 ==> h.po == [] && h.poPlacedDate == HeaderOf(pages[0].text, parseDate).poPlacedDate
    ensures q > 0 ==> h.purchaser == HeaderOf(pages[0].text, parseDate).purchaser
  {
    var h := HeaderOf(pages[0].text, parseDate);
    if q == 0 then h else h.(po := "")
  }

  /** The first-pass record of page `q`. */
  function PageInfoOf(pages: seq<Page>, q: nat, parseDate: DateParser): PageInfo
    requires q < |pages|
  {
    PageInfo(q, PageHeader(pages, q, parseDate), DataRowsOf(pages[q].table, parseDate), SchedulesOf(pages[q].table, parseDate))
  }

  /** The first-pass records of all pages. */
  function FirstPass(pages: seq<Page>, parseDate: DateParser): (infos: seq<PageInfo>)
    ensures |infos| == |pages|
    ensures forall q :: 0 <= q < |pages| ==> infos[q] == PageInfoOf(pages, q, parseDate)
  {
    seq(|pages|, q requires 0 <= q < |pages| => PageInfoOf(pages, q, parseDate))
  }

  /** The first pass over every page. */
  method CollectPages(pages: seq<Page>, parseDate: DateParser) returns (infos: seq<PageInfo>)
    ensures |infos| == |pages|
    ensures forall q :: 0 <= q < |pages| ==> infos[q] == PageInfoOf(pages, q, parseDate)
  {
    infos := [];
    ghost var first := if |pages| > 0 then HeaderOf(pages[0].text, parseDate) else Header("", None, "");
    var placed: Option<Date> := None;
    var purchaser := "";
    var q := 0;
    while q < |pages|
      invariant 0 <= q <= |pages|
      invariant |infos| == q
      invariant forall r :: 0 <= r < q ==> infos[r] == PageInfoOf(pages, r, parseDate)
      invariant q > 0 ==> placed == first.poPlacedDate && purchaser == first.purchaser
    {
      var po := "";
      if q == 0 {
        var h := HeaderOf(pages[0].text, parseDate);
        po, placed, purchaser := h.po, h.poPlacedDate, h.purchaser;
      }
      var rows, schedules := ScanTable(pages[q].table, parseDate);
      assert Header(po, placed, purchaser) == PageHeader(pages, q, parseDate);
      infos := infos + [PageInfo(q, Header(po, placed, purchaser), rows, schedules)];
      q := q + 1;
    }
  }

  /** Every page after the sharing step: its header replaced by page 0's. */
  function Shared(infos: seq<PageInfo>): (out: seq<PageInfo>)
    ensures |out| == |infos|
    ensures forall q :: 0 <= q < |out| ==> out[q] == infos[q].(header := infos[0].header)
  {
    seq(|infos|, q requires 0 <= q < |infos| => infos[q].(header := infos[0].header))
  }

  /** The sharing step: copy the PO number, date and purchaser of page 0 onto every later page. */
  method ShareFirstPage(infos: seq<PageInfo>) returns (out: seq<PageInfo>)
    ensures out == Shared(infos)
  {
    out := infos;
    if |infos| > 0 {
      var first := infos[0].header;
      var q := 1;
      while q < |out|
        invariant 1 <= q <= |out| == |infos|
        invariant out[0] == infos[0]
        invariant forall r :: 1 <= r < q ==> out[r] == infos[r].(header := first)
        invariant forall r :: q <= r < |out| ==> out[r] == infos[r]
      {
        out := out[q := out[q].(header := first)];
        q := q + 1;
      }
    }
  }

  /** After sharing, every page carries page 0's header. */
  lemma SharedHeaders(pages: seq<Page>, parseDate: DateParser, infos: seq<PageInfo>)
    requires |infos| == |pages| && forall q :: 0 <= q < |pages| ==> infos[q] == PageInfoOf(pages, q, parseDate)
    ensures forall q :: 0 <= q < |infos| ==> Shared(infos)[q].header == HeaderOf(pages[0].text, parseDate)
  {
  }

  /** One entry of the list the stitcher sorts: a data row or a schedule line, with its page. */
  datatype Element =
    | DataElement(page: nat, header: Header, row: DataRow)
    | ScheduleElement(page: nat, schedule: ScheduleLine)

  /** The table row an element stands for. */
  function RowOf(e: Element): nat {
    match e
    case DataElement(_, _, r) => r.rowIndex
    case ScheduleElement(_, s) => s.rowIndex
  }

  /** The sort key `(page_num, table_row_index)`, compared lexicographically. */
  predicate KeyLe(a: Element, b: Element) {
    a.page < b.page || (a.page == b.page && RowOf(a) <= RowOf(b))
  }

  predicate KeyLess(a: Element, b: Element) {
    a.page < b.page || (a.page == b.page && RowOf(a) < RowOf(b))
  }

  /** The data elements of one page, in row order. */
  function PageDataElements(info: PageInfo): (es: seq<Element>)
    ensures |es| == |info.dataRows|
    ensures forall k :: 0 <= k < |es| ==> es[k] == DataElement(info.pageNum, info.header, info.dataRows[k])
  {
    seq(|info.dataRows|, k requires 0 <= k < |info.dataRows| => DataElement(info.pageNum, info.header, info.dataRows[k]))
  }

  /** The schedule elements of one page, in row order. */
  function PageScheduleElements(info: PageInfo): (es: seq<Element>)
    ensures |es| == |info.schedules|
    ensures forall k :: 0 <= k < |es| ==> es[k] == ScheduleElement(info.pageNum, info.schedules[k])
  {
    seq(|info.schedules|, k requires 0 <= k < |info.schedules| => ScheduleElement(info.pageNum, info.schedules[k]))
  }

  /** `all_data_rows`: the data rows of every page, page by page. */
  function DataElements(infos: seq<PageInfo>): seq<Element> {
    if infos == [] then [] else DataElements(infos[..|infos| - 1]) + PageDataElements(infos[|infos| - 1])
  }

  /** `all_schedule_lines`: the schedule lines of every page, page by page. */
  function ScheduleElements(infos: seq<PageInfo>): seq<Element> {
    if infos == [] then [] else ScheduleElements(infos[..|infos| - 1]) + PageScheduleElements(infos[|infos| - 1])
  }

  /** `all_elements` before sorting: every data row, then every schedule line. */
  function Elements(infos: seq<PageInfo>): seq<Element> {
    DataElements(infos) + ScheduleElements(infos)
  }

  /** The collection loops: gather data rows and schedule lines page by page, then join the two lists. */
  method CollectElements(infos: seq<PageInfo>) returns (es: seq<Element>)
    ensures es == Elements(infos)
  {
    var dataEs: seq<Element> := [];
    var scheduleEs: seq<Element> := [];
    var p := 0;
    while p < |infos|
      invariant 0 <= p <= |infos|
      invariant dataEs == DataElements(infos[..p])
      invariant scheduleEs == ScheduleElements(infos[..p])
    {
      var info := infos[p];
      assert infos[..p + 1][..p] == infos[..p];
      ghost var before := dataEs;
      var k := 0;
      while k < |info.dataRows|
        invariant 0 <= k <= |info.dataRows|
        invariant dataEs == before + PageDataElements(info)[..k]
      {
        dataEs := dataEs + [DataElement(info.pageNum, info.header, info.dataRows[k])];
        assert PageDataElements(info)[..k + 1] == PageDataElements(info)[..k] + [PageDataElements(info)[k]];
        k := k + 1;
      }
      assert PageDataElements(info)[..k] == PageDataElements(info);
      ghost var beforeS := scheduleEs;
      k := 0;
      while k < |info.schedules|
        invariant 0 <= k <= |info.schedules|
        invariant scheduleEs == beforeS + PageScheduleElements(info)[..k]
      {
        scheduleEs := scheduleEs + [ScheduleElement(info.pageNum, info.schedules[k])];
        assert PageScheduleElements(info)[..k + 1] == PageScheduleElements(info)[..k] + [PageScheduleElements(info)[k]];
        k := k + 1;
      }
      assert PageScheduleElements(info)[..k] == PageScheduleElements(info);
      p := p + 1;
    }
    assert infos[..p] == infos;
    es := dataEs + scheduleEs;
  }

  // ---------------------------------------------------------------------------
  // The stable sort by (page_num, table_row_index)

  /** Insert `e` after every element whose key is not greater than its own (the place a stable sort gives it). */
  function InsertByKey(s: seq<Element>, e: Element): (r: seq<Element>)
    ensures |r| == |s| + 1
    decreases |s|
  {
    if s == [] || KeyLe(s[|s| - 1], e) then s + [e]
    else InsertByKey(s[..|s| - 1], e) + [s[|s| - 1]]
  }

  /** `all_elements.sort(key=...)`: a stable insertion sort by key. */
  function SortByKey(es: seq<Element>): (r: seq<Element>)
    ensures |r| == |es|
  {
    if es == [] then [] else InsertByKey(SortByKey(es[..|es| - 1]), es[|es| - 1])
  }

  predicate SortedByKey(s: seq<Element>) {
    forall k, m :: 0 <= k < m < |s| ==> KeyLe(s[k], s[m])
  }

  predicate StrictlySortedByKey(s: seq<Element>) {
    forall k, m :: 0 <= k < m < |s| ==> KeyLess(s[k], s[m])
  }

  /** The keys present in a list of elements. */
  function KeySet(s: seq<Element>): set<(nat, nat)> {
    set k | 0 <= k < |s| :: (s[k].page, RowOf(s[k]))
  }

  /** No two elements share a key. */
  predicate UniqueKeys(s: seq<Element>) {
    forall k, m :: 0 <= k < m < |s| ==> (s[k].page, RowOf(s[k])) != (s[m].page, RowOf(s[m]))
  }

  lemma {:induction false} InsertByKeySorted(s: seq<Element>, e: Element)
    requires SortedByKey(s)
    ensures SortedByKey(InsertByKey(s, e))
    ensures multiset(InsertByKey(s, e)) == multiset(s) + multiset{e}
    decreases |s|
  {
    if s == [] || KeyLe(s[|s| - 1], e) {
    } else {
      var init, last := s[..|s| - 1], s[|s| - 1];
      InsertByKeySorted(init, e);
      var r := InsertByKey(init, e);
      InsertByKeyBound(init, e, last);
      assert s == init + [last];
    }
  }

  /** Every element of `InsertByKey(s, e)` has a key at most `b`'s when `e` and all of `s` do. */
  lemma {:induction false} InsertByKeyBound(s: seq<Element>, e: Element, b: Element)
    requires forall k :: 0 <= k < |s| ==> KeyLe(s[k], b)
    requires KeyLe(e, b)
    ensures forall k :: 0 <= k < |InsertByKey(s, e)| ==> KeyLe(InsertByKey(s, e)[k], b)
    decreases |s|
  {
    if s == [] || KeyLe(s[|s| - 1], e) {
    } else {
      InsertByKeyBound(s[..|s| - 1], e, b);
    }
  }

  /** The sort orders by key and permutes the list. */
  lemma {:induction false} SortByKeySorted(es: seq<Element>)
    ensures SortedByKey(SortByKey(es))
    ensures multiset(SortByKey(es)) == multiset(es)
    decreases |es|
  {
    if es != [] {
      var init := es[..|es| - 1];
      SortByKeySorted(init);
      InsertByKeySorted(SortByKey(init), es[|es| - 1]);
      assert es == init + [es[|es| - 1]];
    }
  }

  lemma {:induction false} InsertByKeyKeys(s: seq<Element>, e: Element)
    ensures KeySet(InsertByKey(s, e)) == KeySet(s) + {(e.page, RowOf(e))}
    decreases |s|
  {
    if s == [] || KeyLe(s[|s| - 1], e) {
      KeysSnoc(s, e);
    } else {
      var init, last := s[..|s| - 1], s[|s| - 1];
      InsertByKeyKeys(init, e);
      KeysSnoc(InsertByKey(init, e), last);
      KeysSnoc(init, last);
      assert s == init + [last];
    }
  }

  lemma KeysSnoc(s: seq<Element>, e: Element)
    ensures KeySet(s + [e]) == KeySet(s) + {(e.page, RowOf(e))}
  {
    var t := s + [e];
    forall x | x in KeySet(t) ensures x in KeySet(s) + {(e.page, RowOf(e))} {
      var k :| 0 <= k < |t| && x == (t[k].page, RowOf(t[k]));
      if k < |s| { assert t[k] == s[k]; }
    }
    forall x | x in KeySet(s) ensures x in KeySet(t) {
      var k :| 0 <= k < |s| && x == (s[k].page, RowOf(s[k]));
      assert t[k] == s[k];
    }
    assert (t[|s|].page, RowOf(t[|s|])) in KeySet(t);
  }

  lemma {:induction false} SortByKeyKeys(es: seq<Element>)
    ensures KeySet(SortByKey(es)) == KeySet(es)
    decreases |es|
  {
    if es != [] {
      var init := es[..|es| - 1];
      SortByKeyKeys(init);
      InsertByKeyKeys(SortByKey(init), es[|es| - 1]);
      assert es == init + [es[|es| - 1]];
      KeysSnoc(init, es[|es| - 1]);
    }
  }

  /** A sorted list whose keys are pairwise different is strictly sorted. */
  lemma SortedUniqueStrict(s: seq<Element>)
    requires SortedByKey(s) && UniqueKeys(s)
    ensures StrictlySortedByKey(s)
  {
  }

  /** Sorting a list with pairwise different keys keeps them pairwise different. */
  lemma {:induction false} SortByKeyUnique(es: seq<Element>)
    requires UniqueKeys(es)
    ensures UniqueKeys(SortByKey(es))
    decreases |es|
  {
    if es != [] {
      var init, e := es[..|es| - 1], es[|es| - 1];
      assert UniqueKeys(init) by {
        forall k, m | 0 <= k < m < |init| ensures (init[k].page, RowOf(init[k])) != (init[m].page, RowOf(init[m])) {
          assert init[k] == es[k] && init[m] == es[m];
        }
      }
      SortByKeyUnique(init);
      SortByKeyKeys(init);
      assert (e.page, RowOf(e)) !in KeySet(init) by {
        forall k | 0 <= k < |init| ensures (init[k].page, RowOf(init[k])) != (e.page, RowOf(e)) {
          assert init[k] == es[k];
        }
      }
      InsertByKeyUnique(SortByKey(init), e);
    }
  }

  lemma {:induction false} InsertByKeyUnique(s: seq<Element>, e: Element)
    requires UniqueKeys(s) && (e.page, RowOf(e)) !in KeySet(s)
    ensures UniqueKeys(InsertByKey(s, e))
    decreases |s|
  {
    if s == [] || KeyLe(s[|s| - 1], e) {
      var t := s + [e];
      forall k, m | 0 <= k < m < |t| ensures (t[k].page, RowOf(t[k])) != (t[m].page, RowOf(t[m])) {
        if m < |s| {
          assert t[k] == s[k] && t[m] == s[m];
        } else {
          assert t[k] == s[k];
          assert (s[k].page, RowOf(s[k])) in KeySet(s);
        }
      }
    } else {
      var init, last := s[..|s| - 1], s[|s| - 1];
      assert UniqueKeys(init) by {
        forall k, m | 0 <= k < m < |init| ensures (init[k].page, RowOf(init[k])) != (init[m].page, RowOf(init[m])) {
          assert init[k] == s[k] && init[m] == s[m];
        }
      }
      assert (e.page, RowOf(e)) !in KeySet(init) by {
        forall k | 0 <= k < |init| ensures (init[k].page, RowOf(init[k])) != (e.page, RowOf(e)) {
          assert init[k] == s[k];
          assert (s[k].page, RowOf(s[k])) in KeySet(s);
        }
      }
      InsertByKeyUnique(init, e);
      InsertByKeyKeys(init, e);
      var r := InsertByKey(init, e);
      assert (last.page, RowOf(last)) != (e.page, RowOf(e)) by {
        assert (s[|s| - 1].page, RowOf(s[|s| - 1])) in KeySet(s);
      }
      assert (last.page, RowOf(last)) !in KeySet(init) by {
        forall k | 0 <= k < |init| ensures (init[k].page, RowOf(init[k])) != (last.page, RowOf(last)) {
          assert init[k] == s[k];
        }
      }
      var t := r + [last];
      forall k, m | 0 <= k < m < |t| ensures (t[k].page, RowOf(t[k])) != (t[m].page, RowOf(t[m])) {
        if m < |r| {
          assert t[k] == r[k] && t[m] == r[m];
        } else {
          assert t[k] == r[k];
          assert (r[k].page, RowOf(r[k])) in KeySet(r);
        }
      }
    }
  }

  // ---------------------------------------------------------------------------
  // Binding data rows to schedule dates

  /** The index of the first schedule element at or after `j`. */
  function FirstScheduleFrom(es: seq<Element>, j: nat): (r: Option<nat>)
    ensures r.Some? ==> j <= r.value < |es| && es[r.value].ScheduleElement?
    ensures r.Some? ==> forall k :: j <= k < r.value ==> es[k].DataElement?
    ensures r.None? ==> forall k :: j <= k < |es| ==> es[k].DataElement?
    decreases |es| - j
  {
    if j >= |es| then None
    else if es[j].ScheduleElement? then Some(j)
    else FirstScheduleFrom(es, j + 1)
  }

  /** The `req_date` of the first schedule element after position `i`, or None. */
  function ReqDateAfter(es: seq<Element>, i: nat): Option<Date> {
    match FirstScheduleFrom(es, i + 1)
    case Some(j) => es[j].schedule.reqDate
    case None => None
  }

  /** The unit price a data row carries on: the unit of a priced cell, else whatever `parse_decimal` makes of the text. */
  function NetPriceValue(p: EurPrice): Option<real> {
    match p
    case Priced(unit, _) => Some(unit)
    case Unpriced(text) => ParseDecimal(text)
  }

  /** The final record of a data row (`final_data_row`). */
  function RecordOf(header: Header, d: DataRow, reqDate: Option<Date>): OrderRecord {
    OrderRecord(header.po, d.idPart, LineOf(d.itemNoZero), Some(WfPoLine(header.po, d.itemNoZero, d.idPart)),
      d.description, ParseDecimal(d.quantity), NetPriceValue(d.netPrice), ParseDecimal(d.netValue),
      reqDate, header.poPlacedDate, Some(header.purchaser))
  }

  /** The records of the data elements among the first `n`, in list order. */
  function Stitched(es: seq<Element>, n: nat): seq<OrderRecord>
    requires n <= |es|
  {
    if n == 0 then []
    else
      var e := es[n - 1];
      if e.DataElement? then Stitched(es, n - 1) + [RecordOf(e.header, e.row, ReqDateAfter(es, n - 1))]
      else Stitched(es, n - 1)
  }

  /** The look-ahead of the stitching loop: scan forward from `i + 1` to the first schedule element. */
  method NextScheduleDate(es: seq<Element>, i: nat) returns (reqDate: Option<Date>)
    requires i < |es|
    ensures reqDate == ReqDateAfter(es, i)
  {
    reqDate := None;
    var j := i + 1;
    while j < |es|
      invariant i + 1 <= j <= |es|
      invariant FirstScheduleFrom(es, i + 1) == FirstScheduleFrom(es, j)
    {
      if es[j].ScheduleElement? {
        reqDate := es[j].schedule.reqDate;
        return;
      }
      j := j + 1;
    }
  }

  /** The stitching loop: each data element takes the date of the nearest schedule element after it. */
  method Stitch(es: seq<Element>) returns (data: seq<OrderRecord>)
    ensures data == Stitched(es, |es|)
  {
    data := [];
    var i := 0;
    while i < |es|
      invariant 0 <= i <= |es|
      invariant data == Stitched(es, i)
    {
      data := StitchElement(es, i, data);
      i := i + 1;
    }
  }

  /** One round of the stitching loop: a data element gets the date of the schedule line after it. */
  method StitchElement(es: seq<Element>, i: nat, data: seq<OrderRecord>) returns (data': seq<OrderRecord>)
    requires i < |es| && data == Stitched(es, i)
    ensures data' == Stitched(es, i + 1)
  {
    data' := data;
    var e := es[i];
    if e.DataElement? {
      var reqDate := NextScheduleDate(es, i);
      data' := data + [RecordOf(e.header, e.row, reqDate)];
    }
  }

  /** How many data elements a list holds. */
  function CountData(es: seq<Element>): nat {
    if es == [] then 0 else CountData(es[..|es| - 1]) + (if es[|es| - 1].DataElement? then 1 else 0)
  }

  /** Stitching yields one record per data element. */
  lemma {:induction false} StitchedCount(es: seq<Element>, n: nat)
    requires n <= |es|
    ensures |Stitched(es, n)| == CountData(es[..n])
    decreases n
  {
    if n > 0 {
      StitchedCount(es, n - 1);
      assert es[..n][..n - 1] == es[..n - 1];
    }
  }

  /** The list the stitcher walks: every element of every page after sharing, sorted by key. */
  function SortedElements(pages: seq<Page>, parseDate: DateParser): seq<Element> {
    SortByKey(Elements(Shared(FirstPass(pages, parseDate))))
  }

  /** The whole extractor on its pages: first pass, sharing, collection, sort, stitching. */
  function WefabricateData(pages: seq<Page>, parseDate: DateParser): seq<OrderRecord> {
    var sorted := SortedElements(pages, parseDate);
    Stitched(sorted, |sorted|)
  }

  /** `extract_wefaricate_data` on pages already read from the PDF. */
  method ExtractWefabricate(pages: seq<Page>, parseDate: DateParser) returns (data: seq<OrderRecord>)
    ensures data == WefabricateData(pages, parseDate)
  {
    var infos := CollectPages(pages, parseDate);
    assert infos == FirstPass(pages, parseDate);
    var shared := ShareFirstPage(infos);
    var es := CollectElements(shared);
    data := Stitch(SortByKey(es));
  }

  // ---------------------------------------------------------------------------
  // What the stitching promises

  /**
   * In a strictly sorted list, the first schedule element after a data element is the nearest
   * schedule line after it in (page, row) order over all pages; there is none exactly when no
   * schedule line comes after it.
   */
  lemma BindsNearest(es: seq<Element>, i: nat)
    requires StrictlySortedByKey(es) && i < |es| && es[i].DataElement?
    ensures FirstScheduleFrom(es, i + 1).Some? ==>
      var j := FirstScheduleFrom(es, i + 1).value;
      KeyLess(es[i], es[j]) &&
      forall m :: 0 <= m < |es| && es[m].ScheduleElement? && KeyLess(es[i], es[m]) ==> KeyLe(es[j], es[m])
    ensures FirstScheduleFrom(es, i + 1).None? <==>
      forall m :: 0 <= m < |es| && es[m].ScheduleElement? ==> !KeyLess(es[i], es[m])
  {
    forall m | 0 <= m < |es| && es[m].ScheduleElement? && KeyLess(es[i], es[m]) ensures i < m {
    }
  }

  /** A run of data rows with strictly increasing row numbers. */
  predicate RowsIncreasing(rows: seq<DataRow>) {
    forall k, m :: 0 <= k < m < |rows| ==> rows[k].rowIndex < rows[m].rowIndex
  }

  predicate SchedulesIncreasing(ss: seq<ScheduleLine>) {
    forall k, m :: 0 <= k < m < |ss| ==> ss[k].rowIndex < ss[m].rowIndex
  }

  /** Page records numbered by position, each with rows in order and no row both data and marker. */
  predicate PagesWellFormed(infos: seq<PageInfo>) {
    forall q :: 0 <= q < |infos| ==>
      && infos[q].pageNum == q
      && RowsIncreasing(infos[q].dataRows)
      && SchedulesIncreasing(infos[q].schedules)
      && forall d, s :: d in infos[q].dataRows && s in infos[q].schedules ==> d.rowIndex != s.rowIndex
  }

  /** The first pass gives well-formed page records, and sharing the header keeps them so. */
  lemma FirstPassWellFormed(pages: seq<Page>, parseDate: DateParser)
    ensures PagesWellFormed(FirstPass(pages, parseDate))
    ensures PagesWellFormed(Shared(FirstPass(pages, parseDate)))
  {
    var infos := FirstPass(pages, parseDate);
    forall q | 0 <= q < |infos|
      ensures RowsIncreasing(infos[q].dataRows) && SchedulesIncreasing(infos[q].schedules)
      ensures forall d, s :: d in infos[q].dataRows && s in infos[q].schedules ==> d.rowIndex != s.rowIndex
    {
      DataRowsOrdered(pages[q].table, parseDate);
      SchedulesOrdered(pages[q].table, parseDate);
      DataRowNotMarker(pages[q].table, parseDate);
    }
  }

  /** A data element comes from a data row of its page. */
  lemma {:induction false} DataElementsFrom(infos: seq<PageInfo>, e: Element)
    requires PagesWellFormed(infos) && e in DataElements(infos)
    ensures e.DataElement? && e.page < |infos| && e.row in infos[e.page].dataRows
    decreases |infos|
  {
    var init := infos[..|infos| - 1];
    assert PagesWellFormed(init) by {
      forall q | 0 <= q < |init| ensures init[q] == infos[q] { }
    }
    if e in DataElements(init) {
      DataElementsFrom(init, e);
    } else {
      var k :| 0 <= k < |PageDataElements(infos[|infos| - 1])| && PageDataElements(infos[|infos| - 1])[k] == e;
    }
  }

  /** A schedule element comes from a schedule line of its page. */
  lemma {:induction false} ScheduleElementsFrom(infos: seq<PageInfo>, e: Element)
    requires PagesWellFormed(infos) && e in ScheduleElements(infos)
    ensures e.ScheduleElement? && e.page < |infos| && e.schedule in infos[e.page].schedules
    decreases |infos|
  {
    var init := infos[..|infos| - 1];
    assert PagesWellFormed(init) by {
      forall q | 0 <= q < |init| ensures init[q] == infos[q] { }
    }
    if e in ScheduleElements(init) {
      ScheduleElementsFrom(init, e);
    } else {
      var k :| 0 <= k < |PageScheduleElements(infos[|infos| - 1])| && PageScheduleElements(infos[|infos| - 1])[k] == e;
    }
  }

  /** Two strictly sorted lists, the first wholly before the second, join into a strictly sorted list. */
  lemma StrictConcat(a: seq<Element>, b: seq<Element>)
    requires StrictlySortedByKey(a) && StrictlySortedByKey(b)
    requires forall x, y :: x in a && y in b ==> KeyLess(x, y)
    ensures StrictlySortedByKey(a + b)
  {
    var c := a + b;
    forall k, m | 0 <= k < m < |c| ensures KeyLess(c[k], c[m]) {
      if m < |a| {
        assert c[k] == a[k] && c[m] == a[m];
      } else if k >= |a| {
        assert c[k] == b[k - |a|] && c[m] == b[m - |a|];
      } else {
        assert c[k] == a[k] && c[m] == b[m - |a|];
      }
    }
  }

  /** The data elements, page by page, are strictly sorted by key. */
  lemma {:induction false} DataElementsStrict(infos: seq<PageInfo>)
    requires PagesWellFormed(infos)
    ensures StrictlySortedByKey(DataElements(infos))
    decreases |infos|
  {
    if infos != [] {
      var init, last := infos[..|infos| - 1], infos[|infos| - 1];
      assert PagesWellFormed(init) by {
        forall q | 0 <= q < |init| ensures init[q] == infos[q] { }
      }
      DataElementsStrict(init);
      forall x, y | x in DataElements(init) && y in PageDataElements(last) ensures KeyLess(x, y) {
        DataElementsFrom(init, x);
      }
      StrictConcat(DataElements(init), PageDataElements(last));
    }
  }

  /** The schedule elements, page by page, are strictly sorted by key. */
  lemma {:induction false} ScheduleElementsStrict(infos: seq<PageInfo>)
    requires PagesWellFormed(infos)
    ensures StrictlySortedByKey(ScheduleElements(infos))
    decreases |infos|
  {
    if infos != [] {
      var init, last := infos[..|infos| - 1], infos[|infos| - 1];
      assert PagesWellFormed(init) by {
        forall q | 0 <= q < |init| ensures init[q] == infos[q] { }
      }
      ScheduleElementsStrict(init);
      forall x, y | x in ScheduleElements(init) && y in PageScheduleElements(last) ensures KeyLess(x, y) {
        ScheduleElementsFrom(init, x);
      }
      StrictConcat(ScheduleElements(init), PageScheduleElements(last));
    }
  }

  /** A strictly sorted list has pairwise different keys. */
  lemma StrictUnique(s: seq<Element>)
    requires StrictlySortedByKey(s)
    ensures UniqueKeys(s)
  {
    forall k, m | 0 <= k < m < |s| ensures (s[k].page, RowOf(s[k])) != (s[m].page, RowOf(s[m])) {
      assert KeyLess(s[k], s[m]);
    }
  }

  /** The collected elements of well-formed pages have pairwise different keys. */
  lemma ElementsUnique(infos: seq<PageInfo>)
    requires PagesWellFormed(infos)
    ensures UniqueKeys(Elements(infos))
  {
    var a, b := DataElements(infos), ScheduleElements(infos);
    DataElementsStrict(infos);
    ScheduleElementsStrict(infos);
    StrictUnique(a);
    StrictUnique(b);
    var c := a + b;
    forall k, m | 0 <= k < m < |c| ensures (c[k].page, RowOf(c[k])) != (c[m].page, RowOf(c[m])) {
      if m < |a| {
        assert c[k] == a[k] && c[m] == a[m];
      } else if k >= |a| {
        assert c[k] == b[k - |a|] && c[m] == b[m - |a|];
      } else {
        assert c[k] == a[k] && c[m] == b[m - |a|];
        DataElementsFrom(infos, a[k]);
        ScheduleElementsFrom(infos, b[m - |a|]);
      }
    }
  }

  /** The list the stitcher walks is strictly sorted by (page, row). */
  lemma SortedElementsStrict(pages: seq<Page>, parseDate: DateParser)
    ensures StrictlySortedByKey(SortedElements(pages, parseDate))
  {
    var infos := Shared(FirstPass(pages, parseDate));
    FirstPassWellFormed(pages, parseDate);
    ElementsUnique(infos);
    SortByKeyUnique(Elements(infos));
    SortByKeySorted(Elements(infos));
    SortedUniqueStrict(SortByKey(Elements(infos)));
  }

  /** Every record comes from a data element before position `n`, dated by the first schedule element after it. */
  lemma {:induction false} StitchedFrom(es: seq<Element>, n: nat, r: OrderRecord)
    requires n <= |es| && r in Stitched(es, n)
    ensures exists k :: 0 <= k < n && es[k].DataElement? && r == RecordOf(es[k].header, es[k].row, ReqDateAfter(es, k))
    decreases n
  {
    var e := es[n - 1];
    if r in Stitched(es, n - 1) {
      StitchedFrom(es, n - 1, r);
    } else {
      assert e.DataElement? && r == RecordOf(e.header, e.row, ReqDateAfter(es, n - 1));
    }
  }

  lemma {:induction false} CountDataAppend(a: seq<Element>, b: seq<Element>)
    ensures CountData(a + b) == CountData(a) + CountData(b)
    decreases |b|
  {
    if b != [] {
      var init := b[..|b| - 1];
      assert (a + b)[..|a + b| - 1] == a + init;
      CountDataAppend(a, init);
    } else {
      assert a + b == a;
    }
  }

  lemma {:induction false} InsertByKeyCount(s: seq<Element>, e: Element)
    ensures CountData(InsertByKey(s, e)) == CountData(s) + CountData([e])
    decreases |s|
  {
    if s == [] || KeyLe(s[|s| - 1], e) {
      CountDataAppend(s, [e]);
    } else {
      var init, last := s[..|s| - 1], s[|s| - 1];
      InsertByKeyCount(init, e);
      CountDataAppend(InsertByKey(init, e), [last]);
      CountDataAppend(init, [last]);
      assert s == init + [last];
    }
  }

  /** Sorting neither adds nor loses data elements. */
  lemma {:induction false} SortByKeyCount(es: seq<Element>)
    ensures CountData(SortByKey(es)) == CountData(es)
    decreases |es|
  {
    if es != [] {
      var init, e := es[..|es| - 1], es[|es| - 1];
      assert es == init + [e];
      var sorted := SortByKey(init);
      assert SortByKey(es) == InsertByKey(sorted, e);
      SortByKeyCount(init);
      InsertByKeyCount(sorted, e);
      CountDataAppend(init, [e]);
    }
  }

  /** The number of data rows over all pages. */
  function TotalDataRows(infos: seq<PageInfo>): nat {
    if infos == [] then 0 else TotalDataRows(infos[..|infos| - 1]) + |infos[|infos| - 1].dataRows|
  }

  lemma PageDataCount(info: PageInfo)
    ensures CountData(PageDataElements(info)) == |info.dataRows|
  {
    PageDataCountPrefix(info, |info.dataRows|);
    assert PageDataElements(info)[..|info.dataRows|] == PageDataElements(info);
  }

  lemma {:induction false} PageDataCountPrefix(info: PageInfo, n: nat)
    requires n <= |info.dataRows|
    ensures CountData(PageDataElements(info)[..n]) == n
    decreases n
  {
    if n > 0 {
      PageDataCountPrefix(info, n - 1);
      assert PageDataElements(info)[..n][..n - 1] == PageDataElements(info)[..n - 1];
    } else {
      assert PageDataElements(info)[..n] == [];
    }
  }

  lemma {:induction false} PageScheduleCountPrefix(info: PageInfo, n: nat)
    requires n <= |info.schedules|
    ensures CountData(PageScheduleElements(info)[..n]) == 0
    decreases n
  {
    if n > 0 {
      PageScheduleCountPrefix(info, n - 1);
      assert PageScheduleElements(info)[..n][..n - 1] == PageScheduleElements(info)[..n - 1];
    } else {
      assert PageScheduleElements(info)[..n] == [];
    }
  }

  lemma {:induction false} ElementsCount(infos: seq<PageInfo>)
    ensures CountData(DataElements(infos)) == TotalDataRows(infos)
    ensures CountData(ScheduleElements(infos)) == 0
    decreases |infos|
  {
    if infos == [] {
      assert DataElements(infos) == [] && ScheduleElements(infos) == [];
    } else {
      var init, last := infos[..|infos| - 1], infos[|infos| - 1];
      ElementsCount(init);
      CountDataAppend(DataElements(init), PageDataElements(last));
      CountDataAppend(ScheduleElements(init), PageScheduleElements(last));
      PageDataCount(last);
      PageScheduleCountPrefix(last, |last.schedules|);
      assert PageScheduleElements(last)[..|last.schedules|] == PageScheduleElements(last);
    }
  }

  lemma {:induction false} SharedTotal(infos: seq<PageInfo>)
    ensures TotalDataRows(Shared(infos)) == TotalDataRows(infos)
    decreases |infos|
  {
    if infos != [] {
      var init := infos[..|infos| - 1];
      if init != [] {
        SharedTotal(init);
        assert Shared(infos)[..|infos| - 1] == Shared(init) by {
          assert init[0] == infos[0];
        }
      } else {
        assert Shared(infos)[..|infos| - 1] == [];
      }
    }
  }

  /** The number of data rows on page `q` and all before it. */
  function DataRowsUpTo(pages: seq<Page>, n: nat, parseDate: DateParser): nat
    requires n <= |pages|
  {
    if n == 0 then 0 else DataRowsUpTo(pages, n - 1, parseDate) + |DataRowsOf(pages[n - 1].table, parseDate)|
  }

  lemma {:induction false} FirstPassTotal(pages: seq<Page>, parseDate: DateParser, n: nat)
    requires n <= |pages|
    ensures TotalDataRows(seq(n, q requires 0 <= q < n => PageInfoOf(pages, q, parseDate))) == DataRowsUpTo(pages, n, parseDate)
    decreases n
  {
    if n > 0 {
      FirstPassTotal(pages, parseDate, n - 1);
      var infos := seq(n, q requires 0 <= q < n => PageInfoOf(pages, q, parseDate));
      assert infos[..n - 1] == seq(n - 1, q requires 0 <= q < n - 1 => PageInfoOf(pages, q, parseDate));
    }
  }

  /** The extractor returns exactly one record per data row, over all pages. */
  lemma WefabricateCount(pages: seq<Page>, parseDate: DateParser)
    ensures |WefabricateData(pages, parseDate)| == DataRowsUpTo(pages, |pages|, parseDate)
  {
    var infos := FirstPass(pages, parseDate);
    var es := Elements(Shared(infos));
    var sorted := SortByKey(es);
    StitchedCount(sorted, |sorted|);
    assert sorted[..|sorted|] == sorted;
    SortByKeyCount(es);
    CountDataAppend(DataElements(Shared(infos)), ScheduleElements(Shared(infos)));
    ElementsCount(Shared(infos));
    SharedTotal(infos);
    FirstPassTotal(pages, parseDate, |pages|);
  }

  /** Every data element collected after sharing carries page 0's header. */
  lemma {:induction false} DataElementsHeader(infos: seq<PageInfo>, h: Header, e: Element)
    requires forall q :: 0 <= q < |infos| ==> infos[q].header == h
    requires e in DataElements(infos)
    ensures e.DataElement? && e.header == h
    decreases |infos|
  {
    var init := infos[..|infos| - 1];
    if e in DataElements(init) {
      DataElementsHeader(init, h, e);
    } else {
      var k :| 0 <= k < |PageDataElements(infos[|infos| - 1])| && PageDataElements(infos[|infos| - 1])[k] == e;
    }
  }

  /** Stitching a list whose data elements all carry header `h` gives records with `h`'s fields. */
  lemma StitchedHeader(es: seq<Element>, h: Header, r: OrderRecord)
    requires forall k :: 0 <= k < |es| && es[k].DataElement? ==> es[k].header == h
    requires r in Stitched(es, |es|)
    ensures r.po == h.po && r.poPlacedDate == h.poPlacedDate && r.purchaser == Some(h.purchaser)
  {
    StitchedFrom(es, |es|, r);
  }

  /** A data element of the collected list carries the header all pages share. */
  lemma ElementsHeader(infos: seq<PageInfo>, h: Header, e: Element)
    requires forall q :: 0 <= q < |infos| ==> infos[q].header == h
    requires e in Elements(infos) && e.DataElement?
    ensures e.header == h
  {
    if e in DataElements(infos) {
      DataElementsHeader(infos, h, e);
    } else {
      ScheduleElementsFrom2(infos, e);
    }
  }

  /** After sharing and sorting, every data element carries page 0's header. */
  lemma SortedHeaders(pages: seq<Page>, parseDate: DateParser)
    requires pages != []
    ensures var sorted := SortedElements(pages, parseDate);
      forall k :: 0 <= k < |sorted| && sorted[k].DataElement? ==> sorted[k].header == HeaderOf(pages[0].text, parseDate)
  {
    var infos := FirstPass(pages, parseDate);
    var shared := Shared(infos);
    var es := Elements(shared);
    var sorted := SortByKey(es);
    var h := HeaderOf(pages[0].text, parseDate);
    SortByKeySorted(es);
    SharedHeaders(pages, parseDate, infos);
    forall k | 0 <= k < |sorted| && sorted[k].DataElement? ensures sorted[k].header == h {
      assert sorted[k] in multiset(sorted);
      ElementsHeader(shared, h, sorted[k]);
    }
  }

  /** Every record carries the PO number, order date and purchaser read from page 0. */
  lemma WefabricateRecords(pages: seq<Page>, parseDate: DateParser, r: OrderRecord)
    requires pages != [] && r in WefabricateData(pages, parseDate)
    ensures r.po == HeaderOf(pages[0].text, parseDate).po
    ensures r.poPlacedDate == HeaderOf(pages[0].text, parseDate).poPlacedDate
    ensures r.purchaser == Some(HeaderOf(pages[0].text, parseDate).purchaser)
  {
    var infos := FirstPass(pages, parseDate);
    var sorted := SortByKey(Elements(Shared(infos)));
    assert r in Stitched(sorted, |sorted|);
    SortedHeaders(pages, parseDate);
    assert forall k :: 0 <= k < |sorted| && sorted[k].DataElement? ==> sorted[k].header == HeaderOf(pages[0].text, parseDate);
    StitchedHeader(sorted, HeaderOf(pages[0].text, parseDate), r);
  }

  /** Schedule elements are never data elements. */
  lemma {:induction false} ScheduleElementsFrom2(infos: seq<PageInfo>, e: Element)
    requires e in ScheduleElements(infos)
    ensures e.ScheduleElement?
    decreases |infos|
  {
    var init := infos[..|infos| - 1];
    if e in ScheduleElements(init) {
      ScheduleElementsFrom2(init, e);
    } else {
      var k :| 0 <= k < |PageScheduleElements(infos[|infos| - 1])| && PageScheduleElements(infos[|infos| - 1])[k] == e;
    }
  }

  /**
   * Each data row of the extractor's sorted list takes the date of the nearest schedule line after
   * it in (page, row) order across all pages, and none when no schedule line follows.
   */
  lemma WefabricateBinding(pages: seq<Page>, parseDate: DateParser, i: nat)
    requires i < |SortedElements(pages, parseDate)| && SortedElements(pages, parseDate)[i].DataElement?
    ensures var es := SortedElements(pages, parseDate);
      FirstScheduleFrom(es, i + 1).Some? ==>
        var j := FirstScheduleFrom(es, i + 1).value;
        KeyLess(es[i], es[j]) && ReqDateAfter(es, i) == es[j].schedule.reqDate &&
        forall m :: 0 <= m < |es| && es[m].ScheduleElement? && KeyLess(es[i], es[m]) ==> KeyLe(es[j], es[m])
    ensures var es := SortedElements(pages, parseDate);
      ReqDateAfter(es, i) == None <== forall m :: 0 <= m < |es| && es[m].ScheduleElement? ==> !KeyLess(es[i], es[m])
  {
    SortedElementsStrict(pages, parseDate);
    BindsNearest(SortedElements(pages, parseDate), i);
  }
}
