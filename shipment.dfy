/**
 * `ShipmentController.process_shipment` of
 * backend/controllers/shipment_controller.py: a shipment of an open item
 * copies the item, with the shipped quantity, into the matching closed
 * table and then deletes the open item (everything shipped) or lowers its
 * quantity (part shipped). All statements run in one transaction: any that
 * fails rolls the whole call back.
 */
module Shipment {
  import opened Wrappers
  import opened Store
  import opened Manager

  /** The closed table a source table ships into. */
  function TargetTable(source: string): (target: string)
    ensures source == "wf_open" ==> target == "wf_closed"
    ensures source != "wf_open" ==> target == "non_wf_closed"
    ensures IsClosedTable(target)
  {
    if source == "wf_open" then "wf_closed" else "non_wf_closed"
  }

  /** How the open item is found: by `po_line` when one is given, else by `po` and `pn`. */
  function ShipWhere(po: Value, pn: Value, poLine: Value): Where {
    if !Falsy(poLine) then Eq("po_line", poLine) else [("po", po), ("pn", pn)]
  }

  /** Every column the clause tests exists, so the query can run. */
  predicate Selectable(t: Table, w: Where) {
    forall k :: 0 <= k < |w| ==> w[k].0 in t.columns
  }

  /** `float(record.get('net_price') or 0)`. */
  function PriceOf(v: Value): real {
    match v
    case Number(x) => x
    case Whole(n) => n as real
    case _ => 0.0
  }

  /** The product of a quantity and a unit price (exact: the rounding to cents is not modelled). */
  function Times(qty: real, price: real): real {
    qty * price
  }

  /** The closed copy of the open item: the shipped quantity and, when the unit price is positive, its total. */
  function ClosedRecord(openRecord: Row, shipmentQty: real): (r: Row)
    ensures Get(r, "qty") == Number(shipmentQty)
    ensures PriceOf(Get(openRecord, "net_price")) > 0.0 ==>
      Get(r, "total_price") == Number(Times(shipmentQty, PriceOf(Get(openRecord, "net_price"))))
    ensures PriceOf(Get(openRecord, "net_price")) <= 0.0 ==> Get(r, "total_price") == Get(openRecord, "total_price")
    ensures forall c :: c != "qty" && c != "total_price" ==> (c in r <==> c in openRecord)
    ensures forall c :: c in openRecord && c != "qty" && c != "total_price" ==> r[c] == openRecord[c]
  {
    var net := PriceOf(Get(openRecord, "net_price"));
    var withQty := openRecord["qty" := Number(shipmentQty)];
    if net > 0.0 then withQty["total_price" := Number(Times(shipmentQty, net))] else withQty
  }

  /** The record kept to the closed table's columns. */
  function Restrict(r: Row, columns: seq<string>): (f: Row)
    ensures forall c :: c in f <==> c in r && c in columns
    ensures forall c :: c in f ==> f[c] == r[c]
  {
    map c | c in r && c in columns :: r[c]
  }

  /** The loop that builds `filtered_closed_record`. */
  method FilterRecord(r: Row, columns: seq<string>) returns (f: Row)
    ensures f == Restrict(r, columns)
  {
    f := map[];
    var todo := r.Keys;
    while todo != {}
      invariant todo <= r.Keys
      invariant forall c :: c in f <==> c in r && c !in todo && c in columns
      invariant forall c :: c in f ==> f[c] == r[c]
      decreases |todo|
    {
      var c :| c in todo;
      todo := todo - {c};
      if c in columns {
        f := f[c := r[c]];
      }
    }
  }

  /** The update of a part shipment: the remaining quantity and its total, or 0 without a positive unit price. */
  function RemainingSets(newQty: real, net: real): Row {
    map["qty" := Number(newQty), "total_price" := Number(if net > 0.0 then Times(newQty, net) else 0.0)]
  }

  /** The tables after a shipment and the quantity left open. */
  datatype Shipped = Shipped(tables: map<string, Table>, remaining: real)

  /** The checks that come before any statement. */
  predicate ValidRequest(source: string, shipmentQty: real, maxQty: real) {
    IsOpenTable(source) && 0.0 < shipmentQty <= maxQty
  }

  /** `process_shipment`, as a function of the tables; None is `success: False` with nothing changed. */
  function Ship(tables: map<string, Table>, source: string, po: Value, pn: Value, shipmentQty: real, maxQty: real,
                poLine: Value): (r: Option<Shipped>)
    ensures !ValidRequest(source, shipmentQty, maxQty) ==> r.None?
    ensures r.Some? ==> source in tables && TargetTable(source) in tables
    ensures r.Some? ==> FirstWhere(tables[source].rows, ShipWhere(po, pn, poLine)).Some?
    ensures r.Some? ==> r.value.remaining == (if shipmentQty >= maxQty then 0.0 else maxQty - shipmentQty)
    ensures r.Some? ==> r.value.tables.Keys == tables.Keys
  {
    var w := ShipWhere(po, pn, poLine);
    if !ValidRequest(source, shipmentQty, maxQty) || source !in tables || !Selectable(tables[source], w) then None
    else
      match FirstWhere(tables[source].rows, w)
      case None => None
      case Some(i) => ShipRow(tables, source, w, i, shipmentQty, maxQty)
  }

  /** The shipment once row `i` of the source table is the item found. */
  function ShipRow(tables: map<string, Table>, source: string, w: Where, i: nat, shipmentQty: real,
                   maxQty: real): (r: Option<Shipped>)
    requires source in tables && i < |tables[source].rows|
    ensures r.Some? ==> TargetTable(source) in tables && r.value.tables.Keys == tables.Keys
    ensures r.Some? ==> r.value.remaining == (if shipmentQty >= maxQty then 0.0 else maxQty - shipmentQty)
  {
    var t := tables[source];
    var target := TargetTable(source);
    if target !in tables then None
    else
      var openRecord := FullRow(t.columns, t.rows[i]);
      var closed := Restrict(ClosedRecord(openRecord, shipmentQty), tables[target].columns);
      if closed == map[] then None
      else
        var tc := tables[target];
        var afterInsert := tables[target := Table(tc.columns, tc.rows + [closed])];
        var net := PriceOf(Get(openRecord, "net_price"));
        if shipmentQty >= maxQty then
          Some(Shipped(afterInsert[source := Table(t.columns, DeleteWhere(t.rows, w))], 0.0))
        else if "qty" !in t.columns || "total_price" !in t.columns then None
        else
          var newQty := maxQty - shipmentQty;
          Some(Shipped(afterInsert[source := Table(t.columns, UpdateWhere(t.rows, w, RemainingSets(newQty, net)))], newQty))
  }

  /** The record the closed table receives for the first open row selected, row `i`. */
  function ClosedCopy(tables: map<string, Table>, source: string, i: nat, shipmentQty: real): Row
    requires source in tables && TargetTable(source) in tables && i < |tables[source].rows|
  {
    Restrict(ClosedRecord(FullRow(tables[source].columns, tables[source].rows[i]), shipmentQty),
             tables[TargetTable(source)].columns)
  }

  /** `process_shipment`: the checks and the lookup of the open item. */
  method ProcessShipment(db: Database, source: string, po: Value, pn: Value, shipmentQty: real, maxQty: real,
                         poLine: Value) returns (r: Option<real>)
    modifies db
    ensures var s := Ship(old(db.tables), source, po, pn, shipmentQty, maxQty, poLine);
      (r.Some? <==> s.Some?)
      && (s.Some? ==> r.value == s.value.remaining && db.tables == s.value.tables)
      && (s.None? ==> db.tables == old(db.tables))
  {
    if !IsOpenTable(source) {
      return None;
    }
    if shipmentQty <= 0.0 || shipmentQty > maxQty {
      return None;
    }
    var w := ShipWhere(po, pn, poLine);
    if source !in db.tables || !Selectable(db.tables[source], w) {
      return None;
    }
    var found := FirstWhere(db.tables[source].rows, w);
    if found.None? {
      return None;
    }
    r := MoveRecord(db, source, w, found.value, shipmentQty, maxQty);
  }

  /** The statements of a shipment once the open item is found, with a rollback when one fails. */
  method MoveRecord(db: Database, source: string, w: Where, i: nat, shipmentQty: real, maxQty: real)
    returns (r: Option<real>)
    requires source in db.tables && i < |db.tables[source].rows|
    modifies db
    ensures var s := ShipRow(old(db.tables), source, w, i, shipmentQty, maxQty);
      (r.Some? <==> s.Some?)
      && (s.Some? ==> r.value == s.value.remaining && db.tables == s.value.tables)
      && (s.None? ==> db.tables == old(db.tables))
  {
    var t := db.tables[source];
    var target := TargetTable(source);
    if target !in db.tables {
      return None;
    }
    var openRecord := FullRow(t.columns, t.rows[i]);
    var isFullShipment := shipmentQty >= maxQty;
    var closedRecord := ClosedRecord(openRecord, shipmentQty);
    var tc := db.tables[target];
    var filtered := FilterRecord(closedRecord, tc.columns);
    if filtered == map[] {
      return None;
    }
    var afterInsert := db.tables[target := Table(tc.columns, tc.rows + [filtered])];
    var net := PriceOf(Get(openRecord, "net_price"));
    if isFullShipment {
      db.tables := afterInsert[source := Table(t.columns, DeleteWhere(t.rows, w))];
      r := Some(0.0);
    } else {
      if "qty" !in t.columns || "total_price" !in t.columns {
        return None;
      }
      var newQty := maxQty - shipmentQty;
      db.tables := afterInsert[source := Table(t.columns, UpdateWhere(t.rows, w, RemainingSets(newQty, net)))];
      r := Some(newQty);
    }
  }

  // ---------------------------------------------------------------------------
  // Properties

  /** The first selected open row is row `i`. */
  predicate FirstSelected(t: Table, w: Where, i: nat) {
    i < |t.rows| && Holds(t.rows[i], w) && forall j :: 0 <= j < i ==> !Holds(t.rows[j], w)
  }

  lemma FirstSelectedIs(t: Table, w: Where, i: nat)
    requires FirstSelected(t, w, i)
    ensures FirstWhere(t.rows, w) == Some(i)
  {
    match FirstWhere(t.rows, w)
    case None =>
    case Some(f) =>
      assert !(f < i) && !(i < f);
  }

  /** Whatever ships, the closed table gains exactly the closed copy of the item at its end. */
  lemma ShipAppendsClosedCopy(tables: map<string, Table>, source: string, po: Value, pn: Value,
                              shipmentQty: real, maxQty: real, poLine: Value, i: nat)
    requires Ship(tables, source, po, pn, shipmentQty, maxQty, poLine).Some?
    requires source in tables && FirstSelected(tables[source], ShipWhere(po, pn, poLine), i)
    ensures TargetTable(source) in tables
    ensures Ship(tables, source, po, pn, shipmentQty, maxQty, poLine).value.tables[TargetTable(source)]
      == Table(tables[TargetTable(source)].columns,
               tables[TargetTable(source)].rows + [ClosedCopy(tables, source, i, shipmentQty)])
  {
    FirstSelectedIs(tables[source], ShipWhere(po, pn, poLine), i);
  }

  /** A full shipment removes every selected open row and keeps every other one. */
  lemma FullShipmentRemovesItem(tables: map<string, Table>, source: string, po: Value, pn: Value,
                                shipmentQty: real, maxQty: real, poLine: Value)
    requires Ship(tables, source, po, pn, shipmentQty, maxQty, poLine).Some? && shipmentQty == maxQty
    ensures source in Ship(tables, source, po, pn, shipmentQty, maxQty, poLine).value.tables
    ensures var after := Ship(tables, source, po, pn, shipmentQty, maxQty, poLine).value.tables[source].rows;
      forall x :: x in after <==> x in tables[source].rows && !Holds(x, ShipWhere(po, pn, poLine))
    ensures Ship(tables, source, po, pn, shipmentQty, maxQty, poLine).value.remaining == 0.0
  {
  }

  /** A part shipment leaves the selected open rows with the unshipped quantity and the other rows as they were. */
  lemma PartShipmentLowersQty(tables: map<string, Table>, source: string, po: Value, pn: Value,
                              shipmentQty: real, maxQty: real, poLine: Value, k: nat)
    requires Ship(tables, source, po, pn, shipmentQty, maxQty, poLine).Some? && shipmentQty < maxQty
    requires source in tables && k < |tables[source].rows|
    ensures source in Ship(tables, source, po, pn, shipmentQty, maxQty, poLine).value.tables
    ensures var after := Ship(tables, source, po, pn, shipmentQty, maxQty, poLine).value.tables[source].rows;
      |after| == |tables[source].rows|
      && (Holds(tables[source].rows[k], ShipWhere(po, pn, poLine)) ==> Get(after[k], "qty") == Number(maxQty - shipmentQty))
      && (!Holds(tables[source].rows[k], ShipWhere(po, pn, poLine)) ==> after[k] == tables[source].rows[k])
    ensures Ship(tables, source, po, pn, shipmentQty, maxQty, poLine).value.remaining == maxQty - shipmentQty
  {
    var w, t := ShipWhere(po, pn, poLine), tables[source];
    var i := FirstWhere(t.rows, w).value;
    var net := PriceOf(Get(FullRow(t.columns, t.rows[i]), "net_price"));
    var sets := RemainingSets(maxQty - shipmentQty, net);
    assert Ship(tables, source, po, pn, shipmentQty, maxQty, poLine).value.tables[source].rows
      == UpdateWhere(t.rows, w, sets);
    assert "qty" in sets && sets["qty"] == Number(maxQty - shipmentQty);
  }

  /** The closed copy carries the shipped quantity and keeps the item's other closed-table columns. */
  lemma ClosedCopyFields(tables: map<string, Table>, source: string, i: nat, shipmentQty: real, c: string)
    requires source in tables && TargetTable(source) in tables && i < |tables[source].rows|
    ensures var cols := tables[TargetTable(source)].columns;
      var copy := ClosedCopy(tables, source, i, shipmentQty);
      ("qty" in cols ==> Get(copy, "qty") == Number(shipmentQty))
      && (c in copy ==> c in cols)
      && (c != "qty" && c != "total_price" && c in cols && c in tables[source].columns ==>
            Get(copy, c) == Get(tables[source].rows[i], c))
  {
  }
}
