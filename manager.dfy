/**
 * `DatabaseManager` of backend/models/database.py: duplicate detection
 * before an import, and the insert, update and delete of one row. Each
 * mutating call commits on its own; a statement the database refuses leaves
 * the table as it was and reports failure.
 */
module Manager {
  import opened Wrappers
  import opened Store

  predicate IsOpenTable(name: string) {
    name == "wf_open" || name == "non_wf_open"
  }

  predicate IsClosedTable(name: string) {
    name == "wf_closed" || name == "non_wf_closed"
  }

  // ---------------------------------------------------------------------------
  // check_duplicates

  /** The column whose value identifies an item: 'po_line' on open tables, 'pn' on closed ones, 'id' elsewhere. */
  function DuplicateKeyField(name: string): string {
    if IsOpenTable(name) then "po_line" else if IsClosedTable(name) then "pn" else "id"
  }

  /** An item already in the table, with the key value that matched. */
  datatype Duplicate = Duplicate(data: Row, primaryKey: Value)

  /** Item `x` counts as a duplicate: its key value is truthy and some row holds it. */
  predicate IsDuplicate(rows: seq<Row>, field: string, x: Row) {
    !Falsy(Get(x, field)) && CountWhere(rows, Eq(field, Get(x, field))) > 0
  }

  /** The duplicates among `items`, in item order. */
  function Duplicates(rows: seq<Row>, field: string, items: seq<Row>): (ds: seq<Duplicate>)
    ensures |ds| <= |items|
    decreases |items|
  {
    if items == [] then []
    else
      var x := items[|items| - 1];
      Duplicates(rows, field, items[..|items| - 1])
      + (if IsDuplicate(rows, field, x) then [Duplicate(x, Get(x, field))] else [])
  }

  /** The rows of a table, none when it does not exist. */
  function RowsOf(tables: map<string, Table>, name: string): seq<Row> {
    if name in tables then tables[name].rows else []
  }

  /** The `SELECT COUNT(*)` of `check_duplicates` fails: no such table, or no such key column. */
  predicate CountFails(tables: map<string, Table>, name: string) {
    name !in tables || DuplicateKeyField(name) !in tables[name].columns
  }

  /**
   * `check_duplicates`: None when it raises, which is when a count query has
   * to run (some item has a truthy key) and fails.
   */
  method CheckDuplicates(db: Database, name: string, dataList: seq<Row>) returns (r: Option<seq<Duplicate>>)
    ensures r.None? <==> (CountFails(db.tables, name)
                          && exists i :: 0 <= i < |dataList| && !Falsy(Get(dataList[i], DuplicateKeyField(name))))
    ensures r.Some? ==> r.value == Duplicates(RowsOf(db.tables, name), DuplicateKeyField(name), dataList)
  {
    var rows := RowsOf(db.tables, name);
    var field := DuplicateKeyField(name);
    var duplicates: seq<Duplicate> := [];
    var i: nat := 0;
    while i < |dataList|
      invariant i <= |dataList|
      invariant duplicates == Duplicates(rows, field, dataList[..i])
      invariant CountFails(db.tables, name) ==> forall j :: 0 <= j < i ==> Falsy(Get(dataList[j], field))
    {
      var data := dataList[i];
      assert dataList[..i + 1][..i] == dataList[..i];
      var key := Get(data, field);
      if !Falsy(key) {
        if CountFails(db.tables, name) {
          return None;
        }
        var count := CountWhere(rows, Eq(field, key));
        if count > 0 {
          duplicates := duplicates + [Duplicate(data, key)];
        }
      }
      i := i + 1;
    }
    assert dataList[..|dataList|] == dataList;
    return Some(duplicates);
  }

  /** Exactly the items whose truthy key is already in the table are reported, each with that key. */
  lemma {:induction false} DuplicatesExactly(rows: seq<Row>, field: string, items: seq<Row>, d: Duplicate)
    ensures d in Duplicates(rows, field, items) <==>
      d.data in items && IsDuplicate(rows, field, d.data) && d.primaryKey == Get(d.data, field)
    decreases |items|
  {
    if items != [] {
      var init := items[..|items| - 1];
      DuplicatesExactly(rows, field, init, d);
      assert items == init + [items[|items| - 1]];
    }
  }

  /** An item whose key value is None or empty is never reported. */
  lemma FalsyKeySkipped(rows: seq<Row>, field: string, items: seq<Row>, x: Row)
    requires Falsy(Get(x, field))
    ensures forall d :: d in Duplicates(rows, field, items) ==> d.data != x
  {
    forall d | d in Duplicates(rows, field, items) ensures d.data != x {
      DuplicatesExactly(rows, field, items, d);
    }
  }

  // ---------------------------------------------------------------------------
  // insert_row

  /**
   * The value stored for an input value: 'None', 'nan' and '' become NULL.
   * No such text is ever stored, and every other value is stored as given.
   */
  function CleanValue(v: Value): (r: Value)
    ensures !NullText(r)
    ensures r != v ==> NullText(v) && r == Null
  {
    if NullText(v) then Null else v
  }

  /** `cleaned_data` of `insert_row`: the keys of `data` that are columns of the table, their values cleaned. */
  function CleanedRow(data: Row, columns: seq<string>): (r: Row)
    ensures forall k :: k in r <==> k in data && k in columns
    ensures forall k :: k in r ==> r[k] == CleanValue(data[k])
  {
    map k | k in data && k in columns :: CleanValue(data[k])
  }

  /** The loop that builds `cleaned_data`. */
  method CleanRow(data: Row, columns: seq<string>) returns (cleaned: Row)
    ensures cleaned == CleanedRow(data, columns)
  {
    cleaned := map[];
    var todo := data.Keys;
    while todo != {}
      invariant todo <= data.Keys
      invariant forall k :: k in cleaned <==> k in data && k !in todo && k in columns
      invariant forall k :: k in cleaned ==> cleaned[k] == CleanValue(data[k])
      decreases |todo|
    {
      var k :| k in todo;
      todo := todo - {k};
      if k in columns {
        cleaned := cleaned[k := CleanValue(data[k])];
      }
    }
  }

  /**
   * The table after inserting the cleaned row, or None when the database
   * refuses: no column left (an empty column list), or an open table's row
   * without a `po_line`.
   */
  function InsertOutcome(name: string, t: Table, cleaned: Row): (r: Option<Table>)
    ensures r.Some? ==> r.value.columns == t.columns
    ensures r.Some? <==> cleaned != map[] && (IsOpenTable(name) ==> KeyOf(cleaned) != Null)
  {
    if cleaned == map[] then None
    else if IsOpenTable(name) then
      if KeyOf(cleaned) == Null then None else Some(Upsert(t, cleaned))
    else Some(Table(t.columns, t.rows + [cleaned]))
  }

  /** The tables after `insert_row(name, data)`, or None when it reports failure and nothing changes. */
  function InsertedTables(tables: map<string, Table>, name: string, data: Row): (r: Option<map<string, Table>>)
    ensures r.Some? ==> name in tables && r.value.Keys == tables.Keys
    ensures r.Some? ==> r.value[name].columns == tables[name].columns
    ensures r.Some? ==> forall n :: n in tables && n != name ==> r.value[n] == tables[n]
  {
    if name !in tables then None
    else
      match InsertOutcome(name, tables[name], CleanedRow(data, tables[name].columns))
      case None => None
      case Some(t) => Some(tables[name := t])
  }

  /** `insert_row`: the cleaned row is added, or upserted on `po_line` for the open tables. */
  method InsertRow(db: Database, name: string, data: Row) returns (ok: bool)
    modifies db
    ensures ok <==> InsertedTables(old(db.tables), name, data).Some?
    ensures db.tables == (if ok then InsertedTables(old(db.tables), name, data).value else old(db.tables))
  {
    if name !in db.tables {
      return false;
    }
    var t := db.tables[name];
    var cleaned := CleanRow(data, t.columns);
    match InsertOutcome(name, t, cleaned)
    case None =>
      ok := false;
    case Some(t') =>
      db.tables := db.tables[name := t'];
      ok := true;
  }

  /** On an open table a successful insert adds its `po_line` and keeps `po_line` a primary key. */
  lemma InsertOpenKeys(name: string, t: Table, cleaned: Row)
    requires IsOpenTable(name) && KeysUnique(t.rows) && InsertOutcome(name, t, cleaned).Some?
    ensures KeysUnique(InsertOutcome(name, t, cleaned).value.rows)
    ensures Keys(InsertOutcome(name, t, cleaned).value.rows) == Keys(t.rows) + {KeyOf(cleaned)}
  {
    UpsertKeys(t, cleaned);
  }

  // ---------------------------------------------------------------------------
  // update_row and delete_row

  /** The columns whose empty text also becomes NULL on update. */
  predicate IsDateColumn(c: string) {
    c == "req_date_wf" || c == "eta_wfsz" || c == "latest_departure_date" || c == "po_placed_date"
  }

  /** The value an update writes: date columns drop None, '', 'None' and 'nan'; others only 'None' and 'nan'. */
  function UpdateValue(c: string, v: Value): (r: Value)
    ensures r == Null <==> v == Null || v == Text("None") || v == Text("nan") || (IsDateColumn(c) && v == Text(""))
    ensures r != Null ==> r == v
  {
    if IsDateColumn(c) then
      if v == Null || NullText(v) then Null else v
    else if v == Text("None") || v == Text("nan") then Null else v
  }

  /** The loop that builds the SET list and its values. */
  method NormalizeUpdates(updates: Row) returns (sets: Row)
    ensures sets.Keys == updates.Keys
    ensures forall c :: c in sets ==> sets[c] == UpdateValue(c, updates[c])
  {
    sets := map[];
    var todo := updates.Keys;
    while todo != {}
      invariant todo <= updates.Keys
      invariant sets.Keys == updates.Keys - todo
      invariant forall c :: c in sets ==> sets[c] == UpdateValue(c, updates[c])
      decreases |todo|
    {
      var c :| c in todo;
      todo := todo - {c};
      sets := sets[c := UpdateValue(c, updates[c])];
    }
  }

  /** The normalised SET list of an update (the map NormalizeUpdates builds). */
  function UpdateSets(updates: Row): (sets: Row) {
    map c | c in updates :: UpdateValue(c, updates[c])
  }

  /**
   * The row an update or delete addresses: on an open table the `po_line`
   * of the first row with that `pn`, or `pn` itself when there is none; `pn`
   * on a closed table; `id` anywhere else.
   */
  function KeyClause(name: string, rows: seq<Row>, pn: Value): (w: Where)
    ensures |w| == 1
  {
    if IsOpenTable(name) then
      match FirstWhere(rows, Eq("pn", pn))
      case Some(i) => Eq("po_line", Get(rows[i], "po_line"))
      case None => Eq("pn", pn)
    else if IsClosedTable(name) then Eq("pn", pn)
    else Eq("id", pn)
  }

  /** On an open table `po_line` is the PRIMARY KEY: the rows a statement leaves keep it non-NULL and unique. */
  predicate KeyConstraint(name: string, rows: seq<Row>) {
    IsOpenTable(name) ==> KeysUnique(rows)
  }

  /**
   * The statement can run: the table has the key column and every column
   * assigned, and the updated rows keep the primary key of an open table.
   */
  predicate UpdateRuns(name: string, t: Table, w: Where, sets: Row) {
    |w| == 1 && w[0].0 in t.columns && sets != map[] && (forall c :: c in sets ==> c in t.columns)
    && KeyConstraint(name, UpdateWhere(t.rows, w, sets))
  }

  /** `update_row`: success iff the resolved key selects a row; the selected rows take the new values. */
  method UpdateRow(db: Database, name: string, pn: Value, updates: Row) returns (ok: bool)
    modifies db
    ensures name !in old(db.tables) ==> !ok && db.tables == old(db.tables)
    ensures name in old(db.tables) ==>
      var t := old(db.tables)[name];
      var w := KeyClause(name, t.rows, pn);
      (ok <==> UpdateRuns(name, t, w, UpdateSets(updates)) && CountWhere(t.rows, w) > 0)
      && db.tables == (if UpdateRuns(name, t, w, UpdateSets(updates))
                       then old(db.tables)[name := Table(t.columns, UpdateWhere(t.rows, w, UpdateSets(updates)))]
                       else old(db.tables))
  {
    if name !in db.tables {
      return false;
    }
    var t := db.tables[name];
    var w := KeyClause(name, t.rows, pn);
    var sets := NormalizeUpdates(updates);
    assert sets == UpdateSets(updates);
    if !UpdateRuns(name, t, w, sets) {
      return false;
    }
    var affected := CountWhere(t.rows, w);
    db.tables := db.tables[name := Table(t.columns, UpdateWhere(t.rows, w, sets))];
    ok := affected > 0;
  }

  /** `delete_row`: success iff the resolved key selects a row; the selected rows are removed. */
  method DeleteRow(db: Database, name: string, pn: Value) returns (ok: bool)
    modifies db
    ensures name !in old(db.tables) ==> !ok && db.tables == old(db.tables)
    ensures name in old(db.tables) ==>
      var t := old(db.tables)[name];
      var w := KeyClause(name, t.rows, pn);
      (ok <==> w[0].0 in t.columns && CountWhere(t.rows, w) > 0)
      && db.tables == (if w[0].0 in t.columns then old(db.tables)[name := Table(t.columns, DeleteWhere(t.rows, w))]
                       else old(db.tables))
  {
    if name !in db.tables {
      return false;
    }
    var t := db.tables[name];
    var w := KeyClause(name, t.rows, pn);
    if w[0].0 !in t.columns {
      return false;
    }
    var affected := CountWhere(t.rows, w);
    db.tables := db.tables[name := Table(t.columns, DeleteWhere(t.rows, w))];
    ok := affected > 0;
  }

  // ---------------------------------------------------------------------------
  // Properties

  /** An update that selects nothing leaves every row as it was. */
  lemma UpdateNothingSelected(rows: seq<Row>, w: Where, sets: Row)
    requires CountWhere(rows, w) == 0
    ensures UpdateWhere(rows, w, sets) == rows
  {
  }

  /** A selected row holds every assigned value afterwards; an unselected row is untouched. */
  lemma UpdateWhereRows(rows: seq<Row>, w: Where, sets: Row, i: nat)
    requires i < |rows|
    ensures Holds(rows[i], w) ==> forall c :: c in sets ==> Get(UpdateWhere(rows, w, sets)[i], c) == sets[c]
    ensures !Holds(rows[i], w) ==> UpdateWhere(rows, w, sets)[i] == rows[i]
  {
  }

  /** An update that writes NULL into `po_line` of a selected row of an open table is refused by the primary key. */
  lemma NullKeyUpdateRefused(name: string, t: Table, w: Where, updates: Row)
    requires IsOpenTable(name) && CountWhere(t.rows, w) > 0
    requires "po_line" in updates && updates["po_line"] in {Null, Text("None"), Text("nan")}
    ensures !UpdateRuns(name, t, w, UpdateSets(updates))
  {
    var sets := UpdateSets(updates);
    assert sets["po_line"] == Null;
    var i :| 0 <= i < |t.rows| && Holds(t.rows[i], w);
    UpdateWhereRows(t.rows, w, sets, i);
    assert KeyOf(UpdateWhere(t.rows, w, sets)[i]) == Null;
  }

  /** An update that gives a selected row the `po_line` of a row it leaves alone is refused by the primary key. */
  lemma DuplicateKeyUpdateRefused(name: string, t: Table, w: Where, updates: Row, i: nat, j: nat)
    requires IsOpenTable(name) && i < |t.rows| && j < |t.rows|
    requires Holds(t.rows[i], w) && !Holds(t.rows[j], w)
    requires "po_line" in updates && UpdateSets(updates)["po_line"] == KeyOf(t.rows[j])
    ensures !UpdateRuns(name, t, w, UpdateSets(updates))
  {
    var sets := UpdateSets(updates);
    UpdateWhereRows(t.rows, w, sets, i);
    UpdateWhereRows(t.rows, w, sets, j);
    var r := UpdateWhere(t.rows, w, sets);
    assert KeyOf(r[i]) == KeyOf(r[j]);
    if i < j {
      assert !(KeyOf(r[i]) != KeyOf(r[j]));
    } else {
      assert !(KeyOf(r[j]) != KeyOf(r[i]));
    }
  }

  /** An update that leaves `po_line` alone keeps a valid primary key, so the constraint never refuses it. */
  lemma UpdateWithoutKeyKeepsKeys(name: string, t: Table, w: Where, sets: Row)
    requires "po_line" !in sets && KeyConstraint(name, t.rows)
    ensures KeyConstraint(name, UpdateWhere(t.rows, w, sets))
  {
    var r := UpdateWhere(t.rows, w, sets);
    forall i | 0 <= i < |r| ensures KeyOf(r[i]) == KeyOf(t.rows[i]) {
      UpdateWhereRows(t.rows, w, sets, i);
    }
  }

  /** On an open table, a `pn` some row carries is resolved to that row's `po_line`. */
  lemma OpenKeyFromPn(name: string, rows: seq<Row>, pn: Value, i: nat)
    requires IsOpenTable(name) && i < |rows| && Holds(rows[i], Eq("pn", pn))
    requires forall j :: 0 <= j < i ==> !Holds(rows[j], Eq("pn", pn))
    ensures KeyClause(name, rows, pn) == Eq("po_line", Get(rows[i], "po_line"))
  {
    match FirstWhere(rows, Eq("pn", pn))
    case None =>
    case Some(f) =>
      assert !(f < i) && !(i < f);
  }

  /** On an open table, a `pn` no row carries leaves a clause on `pn` that selects nothing: the call fails. */
  lemma OpenKeyUnknownPn(name: string, rows: seq<Row>, pn: Value)
    requires IsOpenTable(name) && forall i :: 0 <= i < |rows| ==> !Holds(rows[i], Eq("pn", pn))
    ensures CountWhere(rows, KeyClause(name, rows, pn)) == 0
  {
  }

  /** An empty text stays on a non-date column and becomes NULL on a date column. */
  lemma EmptyTextOnUpdate(c: string)
    ensures IsDateColumn(c) ==> UpdateValue(c, Text("")) == Null
    ensures !IsDateColumn(c) ==> UpdateValue(c, Text("")) == Text("")
  {
  }
}
