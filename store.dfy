/**
 * The `purchase_orders` tables as the managers see them: each table has its
 * columns in schema order and its rows in storage order; a row maps column
 * names to values, a column it does not mention holding NULL. A `WHERE`
 * clause is a conjunction of `column = value` tests, and SQL's `= NULL` is
 * never true.
 */
module Store {
  import opened Wrappers
  import opened Dates
  import opened Records

  /** A column value: NULL, text, a decimal, an integer or a date. */
  datatype Value = Null | Text(s: string) | Number(x: real) | Whole(n: int) | Day(d: Date)

  type Row = map<string, Value>

  /** A table: its columns in schema order and its rows in storage order. */
  datatype Table = Table(columns: seq<string>, rows: seq<Row>)

  /** The value a row holds in column `c` (NULL when it does not mention it). */
  function Get(row: Row, c: string): Value {
    if c in row then row[c] else Null
  }

  /** The texts 'None', 'nan' and '' that the managers store as NULL. */
  predicate NullText(v: Value) {
    v == Text("None") || v == Text("nan") || v == Text("")
  }

  /** Python truthiness of a value: None, '', 0 and 0.0 are false. */
  predicate Falsy(v: Value) {
    v == Null || v == Text("") || v == Number(0.0) || v == Whole(0)
  }

  // ---------------------------------------------------------------------------
  // WHERE clauses

  /** `WHERE c1 = v1 AND c2 = v2 ...`. */
  type Where = seq<(string, Value)>

  /** A row satisfies the clause: every column the clause names holds its non-NULL value. */
  predicate Holds(row: Row, w: Where) {
    forall k :: 0 <= k < |w| ==> w[k].1 != Null && Get(row, w[k].0) == w[k].1
  }

  /** The number of rows the clause selects: `cursor.rowcount` of an UPDATE or DELETE. */
  function CountWhere(rows: seq<Row>, w: Where): (n: nat)
    ensures n <= |rows|
    ensures n == 0 <==> forall i :: 0 <= i < |rows| ==> !Holds(rows[i], w)
    decreases |rows|
  {
    if rows == [] then 0
    else CountWhere(rows[..|rows| - 1], w) + (if Holds(rows[|rows| - 1], w) then 1 else 0)
  }

  /** The first selected row, as `fetchone()` returns it. */
  function FirstWhere(rows: seq<Row>, w: Where): (r: Option<nat>)
    ensures r.Some? ==> r.value < |rows| && Holds(rows[r.value], w)
    ensures r.Some? ==> forall j :: 0 <= j < r.value ==> !Holds(rows[j], w)
    ensures r.None? <==> forall i :: 0 <= i < |rows| ==> !Holds(rows[i], w)
    decreases |rows|
  {
    if rows == [] then None
    else if Holds(rows[0], w) then Some(0)
    else match FirstWhere(rows[1..], w)
      case None => None
      case Some(j) => Some(j + 1)
  }

  /** `UPDATE ... SET sets WHERE w`: every selected row takes the new values, the others stay. */
  function UpdateWhere(rows: seq<Row>, w: Where, sets: Row): (r: seq<Row>)
    ensures |r| == |rows|
  {
    seq(|rows|, i requires 0 <= i < |rows| => if Holds(rows[i], w) then rows[i] + sets else rows[i])
  }

  /** `DELETE ... WHERE w`: the rows the clause does not select, in order. */
  function DeleteWhere(rows: seq<Row>, w: Where): (r: seq<Row>)
    ensures |r| == |rows| - CountWhere(rows, w)
    ensures forall x :: x in r <==> x in rows && !Holds(x, w)
    decreases |rows|
  {
    if rows == [] then []
    else
      var rest := DeleteWhere(rows[..|rows| - 1], w);
      assert rows == rows[..|rows| - 1] + [rows[|rows| - 1]];
      if Holds(rows[|rows| - 1], w) then rest else rest + [rows[|rows| - 1]]
  }

  /** A clause on one column. */
  function Eq(c: string, v: Value): Where {
    [(c, v)]
  }

  lemma HoldsEq(row: Row, c: string, v: Value)
    ensures Holds(row, Eq(c, v)) <==> v != Null && Get(row, c) == v
  {
    var w := Eq(c, v);
    assert |w| == 1 && w[0] == (c, v);
    if v != Null && Get(row, c) == v {
      forall k | 0 <= k < |w| ensures w[k].1 != Null && Get(row, w[k].0) == w[k].1 {
        assert k == 0;
      }
    }
  }

  /** The row with every column of the table, as `SELECT *` returns it. */
  function FullRow(columns: seq<string>, row: Row): (r: Row)
    ensures forall c :: c in r <==> c in columns
  {
    map c | c in columns :: Get(row, c)
  }

  /** Every column a row mentions is a column of the table. */
  predicate Fits(t: Table, row: Row) {
    forall c :: c in row ==> c in t.columns
  }

  // ---------------------------------------------------------------------------
  // Order records as rows

  function TextOr(o: Option<string>): Value {
    match o case Some(s) => Text(s) case None => Null
  }

  function WholeOr(o: Option<nat>): Value {
    match o case Some(n) => Whole(n) case None => Null
  }

  function NumberOr(o: Option<real>): Value {
    match o case Some(x) => Number(x) case None => Null
  }

  function DayOr(o: Option<Date>): Value {
    match o case Some(d) => Day(d) case None => Null
  }

  function ReqDateColumn(wf: bool): string {
    if wf then "req_date_wf" else "req_date"
  }

  /**
   * The dictionary an extractor builds for a record, with its requested date
   * under 'req_date_wf' for Wefabricate (`wf`) and 'req_date' for the others;
   * None fields are present as NULL.
   */
  function RecordRow(r: OrderRecord, wf: bool): Row {
    map["po" := Text(r.po), "pn" := Text(r.pn), "line" := WholeOr(r.line), "po_line" := TextOr(r.poLine),
        "description" := Text(r.description), "qty" := NumberOr(r.qty), "net_price" := NumberOr(r.netPrice),
        "total_price" := NumberOr(r.totalPrice), "po_placed_date" := DayOr(r.poPlacedDate),
        "purchaser" := TextOr(r.purchaser)][ReqDateColumn(wf) := DayOr(r.reqDate)]
  }

  // ---------------------------------------------------------------------------
  // The upsert of the open tables, keyed on `po_line`

  /** The `po_line` key of a row. */
  function KeyOf(cols: Row): Value {
    Get(cols, "po_line")
  }

  /** What `ON CONFLICT (po_line) DO UPDATE SET` assigns: every named column but the key, or `po = EXCLUDED.po`. */
  function UpdatePart(cols: Row): (u: Row)
    ensures "po_line" !in u
  {
    var rest := cols - {"po_line"};
    if rest == map[] then map["po" := Get(cols, "po")] else rest
  }

  /** `INSERT ... ON CONFLICT (po_line) DO UPDATE`: the row with that key takes the new values, or the row is added. */
  function Upsert(t: Table, cols: Row): Table
    requires KeyOf(cols) != Null
  {
    match FirstWhere(t.rows, Eq("po_line", KeyOf(cols)))
    case Some(i) => Table(t.columns, t.rows[i := t.rows[i] + UpdatePart(cols)])
    case None => Table(t.columns, t.rows + [cols])
  }

  /** A non-key column the upsert names is overwritten in the existing row. */
  lemma UpdatedCell(t: Table, cols: Row, i: nat, c: string)
    requires KeyOf(cols) != Null && KeysUnique(t.rows)
    requires i < |t.rows| && KeyOf(t.rows[i]) == KeyOf(cols)
    requires c in cols && c != "po_line"
    ensures Get(Upsert(t, cols).rows[i], c) == cols[c]
  {
    UpsertExisting(t, cols, i);
    assert c in UpdatePart(cols);
  }

  /** The `po_line` keys of the rows of a table. */
  function Keys(rows: seq<Row>): set<Value> {
    set i | 0 <= i < |rows| :: KeyOf(rows[i])
  }

  /** The primary key: no two rows share a `po_line` and none has NULL there. */
  predicate KeysUnique(rows: seq<Row>) {
    (forall i :: 0 <= i < |rows| ==> KeyOf(rows[i]) != Null)
    && forall i, j :: 0 <= i < j < |rows| ==> KeyOf(rows[i]) != KeyOf(rows[j])
  }

  /** An upsert onto an existing key: each column it names is overwritten, the others and the other rows stay. */
  lemma UpsertExisting(t: Table, cols: Row, i: nat)
    requires KeyOf(cols) != Null && KeysUnique(t.rows)
    requires i < |t.rows| && KeyOf(t.rows[i]) == KeyOf(cols)
    ensures |Upsert(t, cols).rows| == |t.rows|
    ensures forall c :: Get(Upsert(t, cols).rows[i], c) == (if c in UpdatePart(cols) then UpdatePart(cols)[c] else Get(t.rows[i], c))
    ensures forall j :: 0 <= j < |t.rows| && j != i ==> Upsert(t, cols).rows[j] == t.rows[j]
  {
    HoldsEq(t.rows[i], "po_line", KeyOf(cols));
    match FirstWhere(t.rows, Eq("po_line", KeyOf(cols)))
    case None =>
      assert false;
    case Some(f) =>
      HoldsEq(t.rows[f], "po_line", KeyOf(cols));
      assert f == i;
  }

  /** A key not in the table yet: the new row is added at the end. */
  lemma UpsertNew(t: Table, cols: Row)
    requires KeyOf(cols) != Null && KeyOf(cols) !in Keys(t.rows)
    ensures Upsert(t, cols).rows == t.rows + [cols]
  {
    match FirstWhere(t.rows, Eq("po_line", KeyOf(cols)))
    case None =>
    case Some(f) =>
      HoldsEq(t.rows[f], "po_line", KeyOf(cols));
      assert false;
  }

  /** Rows with the same keys, position by position, have the same key set and uniqueness. */
  lemma SameKeys(r: seq<Row>, rows: seq<Row>)
    requires |r| == |rows| && forall j :: 0 <= j < |r| ==> KeyOf(r[j]) == KeyOf(rows[j])
    ensures Keys(r) == Keys(rows)
    ensures KeysUnique(rows) ==> KeysUnique(r)
  {
    forall v | v in Keys(r) ensures v in Keys(rows) {
      var j :| 0 <= j < |r| && KeyOf(r[j]) == v;
    }
    forall v | v in Keys(rows) ensures v in Keys(r) {
      var j :| 0 <= j < |rows| && KeyOf(rows[j]) == v;
    }
  }

  /** Appending a row adds its key; a new non-NULL key keeps the keys unique. */
  lemma AppendKeys(rows: seq<Row>, cols: Row)
    ensures Keys(rows + [cols]) == Keys(rows) + {KeyOf(cols)}
    ensures KeysUnique(rows) && KeyOf(cols) != Null && KeyOf(cols) !in Keys(rows) ==> KeysUnique(rows + [cols])
  {
    var r := rows + [cols];
    assert KeyOf(r[|rows|]) == KeyOf(cols);
    forall v | v in Keys(r) ensures v in Keys(rows) + {KeyOf(cols)} {
      var j :| 0 <= j < |r| && KeyOf(r[j]) == v;
      if j < |rows| { assert r[j] == rows[j]; }
    }
    forall v | v in Keys(rows) ensures v in Keys(r) {
      var j :| 0 <= j < |rows| && KeyOf(rows[j]) == v;
      assert r[j] == rows[j];
    }
    if KeysUnique(rows) && KeyOf(cols) != Null && KeyOf(cols) !in Keys(rows) {
      forall i, j | 0 <= i < j < |r| ensures KeyOf(r[i]) != KeyOf(r[j]) {
        assert r[i] == rows[i];
        if j == |rows| {
          assert KeyOf(rows[i]) in Keys(rows);
        } else {
          assert r[j] == rows[j];
        }
      }
    }
  }

  /** An upsert adds its key to the table's keys and keeps the key unique. */
  lemma UpsertKeys(t: Table, cols: Row)
    requires KeyOf(cols) != Null && KeysUnique(t.rows)
    ensures Keys(Upsert(t, cols).rows) == Keys(t.rows) + {KeyOf(cols)}
    ensures KeysUnique(Upsert(t, cols).rows)
  {
    var key := KeyOf(cols);
    if key in Keys(t.rows) {
      var i :| 0 <= i < |t.rows| && KeyOf(t.rows[i]) == key;
      UpsertExisting(t, cols, i);
      var r := Upsert(t, cols).rows;
      assert KeyOf(r[i]) == key;
      SameKeys(r, t.rows);
    } else {
      UpsertNew(t, cols);
      AppendKeys(t.rows, cols);
    }
  }

  // ---------------------------------------------------------------------------
  // The database

  /** The `purchase_orders` schema: its tables by name. */
  class Database {
    var tables: map<string, Table>
  }
}
