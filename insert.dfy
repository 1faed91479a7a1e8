/**
 * `insert_wf_open_data`, `insert_non_wf_open_data` and
 * `insert_non_wf_open_magic_fx_data`: each entry is first checked
 * (qty x net_price against total_price, within 0.02) and then upserted into
 * its open table on `po_line`, the table's primary key, all in one
 * transaction. The count returned is the number of statements that ran; once
 * the database refuses one statement, it refuses the rest of the transaction
 * and the final commit rolls every row back.
 */
module Insert {
  import opened Wrappers
  import opened Numeric
  import opened Records
  import opened Store

  /** The three insert functions, by the table and column list they use. */
  datatype Kind = WfOpen | NonWfOpen | MagicFxNonWfOpen

  function TableName(k: Kind): string {
    if k.WfOpen? then "wf_open" else "non_wf_open"
  }

  /** The check before an upsert: the entry's three amounts disagree by more than 0.02. */
  predicate Mismatched(e: OrderRecord) {
    ArithmeticMismatch(e.qty, e.netPrice, e.totalPrice)
  }

  /** The columns the non-WF functions name whose value is not None ('purchaser' is not among them). */
  function PresentColumns(e: OrderRecord): (cols: Row)
    ensures forall c :: c in cols ==> cols[c] != Null
  {
    var all := RecordRow(e, false);
    map c | c in all && c != "purchaser" && all[c] != Null :: all[c]
  }

  /** The row an entry's INSERT names: all eleven columns for wf_open, only the present ones otherwise. */
  function EntryColumns(k: Kind, e: OrderRecord): Row {
    if k.WfOpen? then RecordRow(e, true) else PresentColumns(e)
  }

  /** Every function keys an entry by its `po_line`, NULL when it is None. */
  lemma EntryKey(k: Kind, e: OrderRecord)
    ensures KeyOf(EntryColumns(k, e)) == TextOr(e.poLine)
  {
    var all := RecordRow(e, false);
    assert "po_line" in all;
  }

  /** The statement runs: the key is not NULL and every named column exists. */
  predicate Executes(columns: seq<string>, cols: Row) {
    KeyOf(cols) != Null && forall c :: c in cols ==> c in columns
  }

  /** An entry that passes the check and whose statement runs on a table with these columns. */
  predicate Accepted(k: Kind, columns: seq<string>, e: OrderRecord) {
    !Mismatched(e) && Executes(columns, EntryColumns(k, e))
  }

  /** An entry that passes the check but whose statement the database refuses. */
  predicate Refused(k: Kind, columns: seq<string>, e: OrderRecord) {
    !Mismatched(e) && !Executes(columns, EntryColumns(k, e))
  }

  function CountAccepted(k: Kind, columns: seq<string>, es: seq<OrderRecord>): (n: nat)
    ensures n <= |es|
    decreases |es|
  {
    if es == [] then 0
    else CountAccepted(k, columns, es[..|es| - 1]) + (if Accepted(k, columns, es[|es| - 1]) then 1 else 0)
  }

  /** The keys the accepted entries bring. */
  function AcceptedKeys(k: Kind, columns: seq<string>, es: seq<OrderRecord>): set<Value>
    decreases |es|
  {
    if es == [] then {}
    else
      AcceptedKeys(k, columns, es[..|es| - 1])
      + (if Accepted(k, columns, es[|es| - 1]) then {KeyOf(EntryColumns(k, es[|es| - 1]))} else {})
  }

  /** The number of entries before the first refused one: all of them when none is refused. */
  function CleanRun(k: Kind, columns: seq<string>, es: seq<OrderRecord>): (n: nat)
    ensures n <= |es|
    ensures forall i :: 0 <= i < n ==> !Refused(k, columns, es[i])
    ensures n < |es| ==> Refused(k, columns, es[n])
    decreases |es|
  {
    if es == [] then 0
    else
      var p := es[..|es| - 1];
      var n := CleanRun(k, columns, p);
      assert forall i :: 0 <= i < |p| ==> p[i] == es[i];
      if n < |p| || Refused(k, columns, es[|p|]) then n else |es|
  }

  // ---------------------------------------------------------------------------
  // The batch as written: one transaction for all entries

  /** The open transaction: the rows written so far, whether a statement has failed, and the counters. */
  datatype Transaction = Transaction(pending: Table, aborted: bool, successes: nat, errors: nat)

  /**
   * One entry as `cursor.execute` treats it: the tolerance `ValueError` is
   * raised before any statement and leaves the transaction usable; once a
   * statement has failed, PostgreSQL refuses every later one.
   */
  function StepAsWritten(k: Kind, x: Transaction, e: OrderRecord): Transaction {
    if Mismatched(e) || x.aborted then x.(errors := x.errors + 1)
    else if Executes(x.pending.columns, EntryColumns(k, e)) then
      x.(pending := Upsert(x.pending, EntryColumns(k, e)), successes := x.successes + 1)
    else x.(aborted := true, errors := x.errors + 1)
  }

  /** The transaction after the entries in order, starting from table `t`. */
  function BatchAsWritten(k: Kind, t: Table, es: seq<OrderRecord>): (x: Transaction)
    ensures x.successes + x.errors == |es|
    ensures x.pending.columns == t.columns
    decreases |es|
  {
    if es == [] then Transaction(t, false, 0, 0)
    else StepAsWritten(k, BatchAsWritten(k, t, es[..|es| - 1]), es[|es| - 1])
  }

  /** `connection.commit()`: an aborted transaction is rolled back; the returned count is `success_count`. */
  function CommitAsWritten(k: Kind, t: Table, es: seq<OrderRecord>): (Table, nat) {
    var x := BatchAsWritten(k, t, es);
    (if x.aborted then t else x.pending, x.successes)
  }

  // ---------------------------------------------------------------------------
  // The insert functions

  /** The batch loop against `db` and its commit: returns `success_count`. */
  method InsertEntries(db: Database, k: Kind, entries: seq<OrderRecord>) returns (successCount: nat)
    modifies db
    ensures TableName(k) !in old(db.tables) ==> successCount == 0 && db.tables == old(db.tables)
    ensures TableName(k) in old(db.tables) ==>
      var c := CommitAsWritten(k, old(db.tables)[TableName(k)], entries);
      successCount == c.1 && db.tables == old(db.tables)[TableName(k) := c.0]
  {
    var name := TableName(k);
    if name !in db.tables {
      return 0;
    }
    var t0 := db.tables[name];
    var x := InsertLoop(k, t0, entries);
    if x.aborted {
      db.tables := db.tables[name := t0];
    } else {
      db.tables := db.tables[name := x.pending];
    }
    successCount := x.successes;
  }

  /** The `for entry in data_entries` loop with its two counters, inside the one transaction. */
  method InsertLoop(k: Kind, t0: Table, entries: seq<OrderRecord>) returns (x: Transaction)
    ensures x == BatchAsWritten(k, t0, entries)
  {
    x := Transaction(t0, false, 0, 0);
    var i: nat := 0;
    while i < |entries|
      invariant i <= |entries|
      invariant x == BatchAsWritten(k, t0, entries[..i])
    {
      assert entries[..i + 1][..i] == entries[..i];
      x := InsertEntry(k, x, entries[i]);
      i := i + 1;
    }
    assert entries[..|entries|] == entries;
  }

  /** The body of the loop for one entry: the tolerance check, then the statement or the error count. */
  method InsertEntry(k: Kind, x: Transaction, e: OrderRecord) returns (x': Transaction)
    ensures x' == StepAsWritten(k, x, e)
  {
    if Mismatched(e) {
      x' := x.(errors := x.errors + 1);
    } else if x.aborted {
      x' := x.(errors := x.errors + 1);
    } else {
      var cols := EntryColumns(k, e);
      if Executes(x.pending.columns, cols) {
        x' := x.(pending := Upsert(x.pending, cols), successes := x.successes + 1);
      } else {
        x' := x.(aborted := true, errors := x.errors + 1);
      }
    }
  }

  /** `insert_wf_open_data`. */
  method InsertWfOpenData(db: Database, entries: seq<OrderRecord>) returns (successCount: nat)
    modifies db
    ensures "wf_open" in old(db.tables) ==>
      var c := CommitAsWritten(WfOpen, old(db.tables)["wf_open"], entries);
      successCount == c.1 && db.tables == old(db.tables)["wf_open" := c.0]
    ensures "wf_open" !in old(db.tables) ==> successCount == 0 && db.tables == old(db.tables)
  {
    successCount := InsertEntries(db, WfOpen, entries);
  }

  /** `insert_non_wf_open_data`. */
  method InsertNonWfOpenData(db: Database, entries: seq<OrderRecord>) returns (successCount: nat)
    modifies db
    ensures "non_wf_open" in old(db.tables) ==>
      var c := CommitAsWritten(NonWfOpen, old(db.tables)["non_wf_open"], entries);
      successCount == c.1 && db.tables == old(db.tables)["non_wf_open" := c.0]
    ensures "non_wf_open" !in old(db.tables) ==> successCount == 0 && db.tables == old(db.tables)
  {
    successCount := InsertEntries(db, NonWfOpen, entries);
  }

  /** `insert_non_wf_open_magic_fx_data`. */
  method InsertMagicFxData(db: Database, entries: seq<OrderRecord>) returns (successCount: nat)
    modifies db
    ensures "non_wf_open" in old(db.tables) ==>
      var c := CommitAsWritten(MagicFxNonWfOpen, old(db.tables)["non_wf_open"], entries);
      successCount == c.1 && db.tables == old(db.tables)["non_wf_open" := c.0]
    ensures "non_wf_open" !in old(db.tables) ==> successCount == 0 && db.tables == old(db.tables)
  {
    successCount := InsertEntries(db, MagicFxNonWfOpen, entries);
  }

  // ---------------------------------------------------------------------------
  // What a batch does as written

  /** An entry that fails the 0.02 check counts as an error and leaves the transaction as it was. */
  lemma MismatchRejected(k: Kind, x: Transaction, e: OrderRecord)
    requires Mismatched(e)
    ensures StepAsWritten(k, x, e) == Transaction(x.pending, x.aborted, x.successes, x.errors + 1)
  {
  }

  /** An entry with any of the three amounts missing skips the check, and its statement runs in a live transaction. */
  lemma MissingAmountAccepted(k: Kind, x: Transaction, e: OrderRecord)
    requires e.qty.None? || e.netPrice.None? || e.totalPrice.None?
    requires !x.aborted && Executes(x.pending.columns, EntryColumns(k, e))
    ensures Accepted(k, x.pending.columns, e)
    ensures StepAsWritten(k, x, e) == Transaction(Upsert(x.pending, EntryColumns(k, e)), false, x.successes + 1, x.errors)
  {
  }

  /** The transaction is aborted exactly when one of the entries is refused. */
  lemma {:induction false} AbortedIffRefused(k: Kind, t: Table, es: seq<OrderRecord>)
    ensures BatchAsWritten(k, t, es).aborted <==> CleanRun(k, t.columns, es) < |es|
    decreases |es|
  {
    if es != [] {
      AbortedIffRefused(k, t, es[..|es| - 1]);
    }
  }

  /**
   * The returned count: the accepted entries before the first refused one.
   * Entries after it are counted as errors even when they are sound.
   */
  lemma {:induction false} CommitCount(k: Kind, t: Table, es: seq<OrderRecord>)
    ensures CommitAsWritten(k, t, es).1 == CountAccepted(k, t.columns, es[..CleanRun(k, t.columns, es)])
    decreases |es|
  {
    if es != [] {
      var p, e := es[..|es| - 1], es[|es| - 1];
      CommitCount(k, t, p);
      AbortedIffRefused(k, t, p);
      var n, x := CleanRun(k, t.columns, p), BatchAsWritten(k, t, p);
      assert BatchAsWritten(k, t, es) == StepAsWritten(k, x, e);
      if n < |p| {
        assert es[..n] == p[..n];
      } else if Refused(k, t.columns, e) {
        assert es[..|p|] == p && p[..|p|] == p;
      } else {
        assert es[..|es|] == es && es[..|es|][..|p|] == p && p[..|p|] == p;
      }
    }
  }

  /** While no statement has failed, the transaction is the corrected batch below. */
  lemma {:induction false} LiveIsIsolated(k: Kind, t: Table, es: seq<OrderRecord>)
    requires !BatchAsWritten(k, t, es).aborted
    ensures BatchAsWritten(k, t, es).pending == InsertBatch(k, t, es).table
    ensures BatchAsWritten(k, t, es).successes == InsertBatch(k, t, es).successes
    decreases |es|
  {
    if es != [] {
      LiveIsIsolated(k, t, es[..|es| - 1]);
    }
  }

  /**
   * What the commit leaves: with no entry refused, the batch of accepted
   * entries with `po_line` still unique; with one refused, the table as it was.
   */
  lemma CommitTable(k: Kind, t: Table, es: seq<OrderRecord>)
    requires KeysUnique(t.rows)
    ensures CleanRun(k, t.columns, es) == |es| ==> CommitAsWritten(k, t, es).0 == InsertBatch(k, t, es).table
    ensures CleanRun(k, t.columns, es) < |es| ==> CommitAsWritten(k, t, es).0 == t
    ensures KeysUnique(CommitAsWritten(k, t, es).0.rows)
    ensures Keys(CommitAsWritten(k, t, es).0.rows)
      == Keys(t.rows) + (if CleanRun(k, t.columns, es) == |es| then AcceptedKeys(k, t.columns, es) else {})
  {
    AbortedIffRefused(k, t, es);
    if CleanRun(k, t.columns, es) == |es| {
      LiveIsIsolated(k, t, es);
      BatchKeys(k, t, es);
    }
  }

  /**
   * As written: an accepted entry followed by one whose `po_line` is None
   * reports one success, yet the commit rolls the batch back and the
   * table is unchanged.
   */
  lemma AbortedBatchReportsSuccess(k: Kind, t: Table, e1: OrderRecord, e2: OrderRecord)
    requires Accepted(k, t.columns, e1)
    requires !Mismatched(e2) && e2.poLine.None?
    ensures CommitAsWritten(k, t, [e1, e2]) == (t, 1)
  {
    assert [e1, e2][..1] == [e1];
    assert [e1][..0] == [];
    assert BatchAsWritten(k, t, []) == Transaction(t, false, 0, 0);
    var x1 := BatchAsWritten(k, t, [e1]);
    assert x1 == StepAsWritten(k, Transaction(t, false, 0, 0), e1);
    assert !x1.aborted;
    assert x1.successes == 1;
    EntryKey(k, e2);
    var x2 := BatchAsWritten(k, t, [e1, e2]);
    assert x2 == StepAsWritten(k, x1, e2);
    assert x2.aborted && x2.successes == 1;
  }

  // ---------------------------------------------------------------------------
  // The batch as intended: each refused statement undone on its own

  datatype Batch = Batch(table: Table, successes: nat, errors: nat)

  /** One entry: rejected by the check, stored, or refused by the database and undone alone. */
  function Step(k: Kind, b: Batch, e: OrderRecord): Batch {
    if Mismatched(e) then b.(errors := b.errors + 1)
    else if Executes(b.table.columns, EntryColumns(k, e)) then
      Batch(Upsert(b.table, EntryColumns(k, e)), b.successes + 1, b.errors)
    else b.(errors := b.errors + 1)
  }

  /** The state after the entries in order, starting from table `t`. */
  function InsertBatch(k: Kind, t: Table, es: seq<OrderRecord>): (b: Batch)
    ensures b.successes + b.errors == |es|
    ensures b.table.columns == t.columns
    decreases |es|
  {
    if es == [] then Batch(t, 0, 0)
    else Step(k, InsertBatch(k, t, es[..|es| - 1]), es[|es| - 1])
  }

  /** The count is the number of entries that pass the check and whose statement runs. */
  lemma {:induction false} BatchSuccesses(k: Kind, t: Table, es: seq<OrderRecord>)
    ensures InsertBatch(k, t, es).successes == CountAccepted(k, t.columns, es)
    decreases |es|
  {
    if es != [] {
      BatchSuccesses(k, t, es[..|es| - 1]);
    }
  }

  /**
   * After a batch the table keeps its primary key, and its keys are the old
   * ones plus those of the accepted entries: every stored entry can be found.
   */
  lemma {:induction false} BatchKeys(k: Kind, t: Table, es: seq<OrderRecord>)
    requires KeysUnique(t.rows)
    ensures KeysUnique(InsertBatch(k, t, es).table.rows)
    ensures Keys(InsertBatch(k, t, es).table.rows) == Keys(t.rows) + AcceptedKeys(k, t.columns, es)
    decreases |es|
  {
    if es != [] {
      var b := InsertBatch(k, t, es[..|es| - 1]);
      BatchKeys(k, t, es[..|es| - 1]);
      var e := es[|es| - 1];
      if Accepted(k, t.columns, e) {
        UpsertKeys(b.table, EntryColumns(k, e));
      }
    }
  }

  /** With each failure undone on its own, the same batch stores the first entry and counts it once. */
  lemma IsolatedBatchStoresFirst(k: Kind, t: Table, e1: OrderRecord, e2: OrderRecord)
    requires KeysUnique(t.rows)
    requires Accepted(k, t.columns, e1)
    requires !Mismatched(e2) && e2.poLine.None?
    ensures InsertBatch(k, t, [e1, e2]).successes == 1
    ensures KeyOf(EntryColumns(k, e1)) in Keys(InsertBatch(k, t, [e1, e2]).table.rows)
  {
    assert [e1, e2][..1] == [e1];
    assert [e1][..0] == [];
    EntryKey(k, e2);
    BatchKeys(k, t, [e1, e2]);
  }

  // ---------------------------------------------------------------------------
  // What one upsert writes

  /** The non-WF functions leave a column of an existing row alone when the entry's value for it is None. */
  lemma NonWfKeepsUnsupplied(k: Kind, t: Table, e: OrderRecord, i: nat, c: string)
    requires !k.WfOpen? && KeysUnique(t.rows)
    requires KeyOf(EntryColumns(k, e)) != Null
    requires i < |t.rows| && KeyOf(t.rows[i]) == KeyOf(EntryColumns(k, e))
    requires c != "po" && c !in PresentColumns(e)
    ensures Get(Upsert(t, EntryColumns(k, e)).rows[i], c) == Get(t.rows[i], c)
  {
    UpsertExisting(t, EntryColumns(k, e), i);
  }

  /** `insert_wf_open_data` overwrites all ten non-key columns, writing NULL where the entry has None. */
  lemma WfOverwritesAll(t: Table, e: OrderRecord, i: nat)
    requires KeysUnique(t.rows) && e.poLine.Some?
    requires i < |t.rows| && KeyOf(t.rows[i]) == Text(e.poLine.value)
    ensures Get(Upsert(t, EntryColumns(WfOpen, e)).rows[i], "qty") == NumberOr(e.qty)
    ensures Get(Upsert(t, EntryColumns(WfOpen, e)).rows[i], "req_date_wf") == DayOr(e.reqDate)
    ensures Get(Upsert(t, EntryColumns(WfOpen, e)).rows[i], "purchaser") == TextOr(e.purchaser)
  {
    var cols := RecordRow(e, true);
    assert cols["qty"] == NumberOr(e.qty) && cols["req_date_wf"] == DayOr(e.reqDate)
      && cols["purchaser"] == TextOr(e.purchaser);
    UpdatedCell(t, cols, i, "qty");
    UpdatedCell(t, cols, i, "req_date_wf");
    UpdatedCell(t, cols, i, "purchaser");
  }
}
