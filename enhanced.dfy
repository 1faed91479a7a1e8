/**
 * The `DatabaseManager` of backend/enhanced_db_manager.py: update and delete
 * guarded by a row hash (optimistic concurrency: the caller sends the hash of
 * the row as it last saw it), and a plain insert.
 */
module Enhanced {
  import opened Wrappers
  import opened Store
  import opened Manager

  // ---------------------------------------------------------------------------
  // generate_row_hash

  /** Python's `<` on strings: lexicographic by code point. */
  predicate StrLess(a: string, b: string)
    decreases |a|
  {
    if a == [] then b != []
    else if b == [] then false
    else if a[0] != b[0] then a[0] < b[0]
    else StrLess(a[1..], b[1..])
  }

  lemma {:induction false} StrLessAsymmetric(a: string, b: string)
    ensures StrLess(a, b) ==> !StrLess(b, a)
    decreases |a|
  {
    if a != [] && b != [] && a[0] == b[0] {
      StrLessAsymmetric(a[1..], b[1..]);
    }
  }

  lemma {:induction false} StrLessTotal(a: string, b: string)
    ensures a == b || StrLess(a, b) || StrLess(b, a)
    decreases |a|
  {
    if a != [] && b != [] && a[0] == b[0] {
      StrLessTotal(a[1..], b[1..]);
      if a[1..] == b[1..] {
        assert a == [a[0]] + a[1..] && b == [b[0]] + b[1..];
      }
    }
  }

  lemma {:induction false} StrLessTransitive(a: string, b: string, c: string)
    requires StrLess(a, b) && StrLess(b, c)
    ensures StrLess(a, c)
    decreases |a|
  {
    if a != [] && a[0] == b[0] && b[0] == c[0] {
      StrLessTransitive(a[1..], b[1..], c[1..]);
    }
  }

  type Pair = (string, Value)

  /** No column appears twice, as in the items of a dictionary. */
  predicate DistinctKeys(s: seq<Pair>) {
    forall i, j :: 0 <= i < j < |s| ==> s[i].0 != s[j].0
  }

  /** Strictly increasing by column name. */
  predicate SortedByKey(s: seq<Pair>) {
    forall i, j :: 0 <= i < j < |s| ==> StrLess(s[i].0, s[j].0)
  }

  /** One step of `sorted`: a pair placed before the first larger column name. */
  function InsertPair(p: Pair, s: seq<Pair>): (r: seq<Pair>)
    ensures multiset(r) == multiset(s) + multiset{p}
  {
    if s == [] then [p]
    else if StrLess(p.0, s[0].0) then [p] + s
    else
      assert s == [s[0]] + s[1..];
      [s[0]] + InsertPair(p, s[1..])
  }

  /** `sorted(row_data.items())`; with distinct column names the tuple order is the column order. */
  function SortPairs(s: seq<Pair>): (r: seq<Pair>)
    ensures multiset(r) == multiset(s)
  {
    if s == [] then []
    else
      assert s == [s[0]] + s[1..];
      InsertPair(s[0], SortPairs(s[1..]))
  }

  /**
   * `generate_row_hash`: the digest of the sorted items. `digest` stands for
   * `hashlib.md5(str(items).encode()).hexdigest()`.
   */
  function RowHash(digest: seq<Pair> -> string, items: seq<Pair>): string {
    digest(SortPairs(items))
  }

  lemma {:induction false} InsertPairSorted(p: Pair, s: seq<Pair>)
    requires SortedByKey(s) && forall k :: 0 <= k < |s| ==> s[k].0 != p.0
    ensures SortedByKey(InsertPair(p, s))
    decreases |s|
  {
    if s != [] {
      StrLessTotal(p.0, s[0].0);
      if !StrLess(p.0, s[0].0) {
        var tail := s[1..];
        InsertPairSorted(p, tail);
        var r := InsertPair(p, tail);
        assert InsertPair(p, s) == [s[0]] + r;
        forall x: Pair | x in multiset(r) ensures StrLess(s[0].0, x.0) {
          assert x in multiset(tail) + multiset{p};
          if x != p {
            assert x in tail;
            var k :| 0 <= k < |tail| && tail[k] == x;
            assert s[k + 1] == x;
          }
        }
        forall i, j | 0 <= i < j < |[s[0]] + r| ensures StrLess(([s[0]] + r)[i].0, ([s[0]] + r)[j].0) {
          if i == 0 {
            assert r[j - 1] in multiset(r);
          }
        }
      } else {
        forall i, j | 0 <= i < j < |[p] + s| ensures StrLess(([p] + s)[i].0, ([p] + s)[j].0) {
          if i == 0 && j > 1 {
            StrLessTransitive(p.0, s[0].0, s[j - 1].0);
          }
        }
      }
    }
  }

  lemma {:induction false} SortPairsSorted(s: seq<Pair>)
    requires DistinctKeys(s)
    ensures SortedByKey(SortPairs(s))
    decreases |s|
  {
    if s != [] {
      var tail := s[1..];
      assert DistinctKeys(tail) by {
        forall i, j | 0 <= i < j < |tail| ensures tail[i].0 != tail[j].0 { assert s[i + 1].0 != s[j + 1].0; }
      }
      SortPairsSorted(tail);
      var r := SortPairs(tail);
      forall k | 0 <= k < |r| ensures r[k].0 != s[0].0 {
        assert r[k] in multiset(tail);
        var m :| 0 <= m < |tail| && tail[m] == r[k];
        assert s[m + 1] == r[k];
      }
      InsertPairSorted(s[0], r);
    }
  }

  /** Two key-sorted sequences with the same items are the same sequence. */
  lemma {:induction false} SortedUnique(a: seq<Pair>, b: seq<Pair>)
    requires SortedByKey(a) && SortedByKey(b) && multiset(a) == multiset(b)
    ensures a == b
    decreases |a|
  {
    if a != [] {
      assert a[0] in multiset(b);
      SameHead(a, b);
      SortedTail(a);
      SortedTail(b);
      SameTailItems(a, b);
      SortedUnique(a[1..], b[1..]);
      assert a == [a[0]] + a[1..] && b == [b[0]] + b[1..];
    } else {
      assert |multiset(b)| == 0;
    }
  }

  /** The least item comes first: two sorted sequences with the same items start alike. */
  lemma SameHead(a: seq<Pair>, b: seq<Pair>)
    requires SortedByKey(a) && SortedByKey(b) && multiset(a) == multiset(b) && a != []
    ensures b != [] && a[0] == b[0]
  {
    assert a[0] in multiset(b);
    if a[0] != b[0] {
      var k :| 0 <= k < |b| && b[k] == a[0];
      assert b[0] in multiset(a);
      var m :| 0 <= m < |a| && a[m] == b[0];
      StrLessAsymmetric(a[0].0, b[0].0);
      assert false;
    }
  }

  lemma SortedTail(s: seq<Pair>)
    requires SortedByKey(s) && s != []
    ensures SortedByKey(s[1..])
  {
    forall i, j | 0 <= i < j < |s[1..]| ensures StrLess(s[1..][i].0, s[1..][j].0) {
      assert s[1..][i] == s[i + 1] && s[1..][j] == s[j + 1];
    }
  }

  lemma SameTailItems(a: seq<Pair>, b: seq<Pair>)
    requires multiset(a) == multiset(b) && a != [] && b != [] && a[0] == b[0]
    ensures multiset(a[1..]) == multiset(b[1..])
  {
    assert a == [a[0]] + a[1..] && b == [b[0]] + b[1..];
    assert multiset(a) == multiset{a[0]} + multiset(a[1..]);
    assert multiset(b) == multiset{a[0]} + multiset(b[1..]);
    assert multiset(a[1..]) == multiset(a) - multiset{a[0]};
    assert multiset(b[1..]) == multiset(b) - multiset{a[0]};
  }

  /** The hash does not depend on the order of the columns: items are sorted before hashing. */
  lemma HashOrderInsensitive(digest: seq<Pair> -> string, p: seq<Pair>, q: seq<Pair>)
    requires DistinctKeys(p) && DistinctKeys(q) && multiset(p) == multiset(q)
    ensures RowHash(digest, p) == RowHash(digest, q)
  {
    SortPairsSorted(p);
    SortPairsSorted(q);
    SortedUnique(SortPairs(p), SortPairs(q));
  }

  /** A stored row as `dict(zip(colnames, current_record))` lists it: every column, in schema order. */
  function CursorRow(columns: seq<string>, row: Row): (items: seq<Pair>)
    ensures |items| == |columns|
  {
    seq(|columns|, i requires 0 <= i < |columns| => (columns[i], Get(row, columns[i])))
  }

  // ---------------------------------------------------------------------------
  // update_row_with_version and delete_row_with_version

  /** The key column of the guarded calls: 'po_line' on wf_open only, 'pn' on the closed tables, 'id' elsewhere. */
  function VersionKeyField(name: string): string {
    if name == "wf_open" then "po_line" else if IsClosedTable(name) then "pn" else "id"
  }

  /** Why a guarded call fails, or its affected-row count. */
  datatype Outcome = Failed | Stale | Affected(count: nat)

  /** The check of the stored row: the first row with the key must hash to `expectedHash`; no row passes. */
  predicate Fresh(t: Table, w: Where, expectedHash: string, digest: seq<Pair> -> string) {
    match FirstWhere(t.rows, w)
    case None => true
    case Some(i) => RowHash(digest, CursorRow(t.columns, t.rows[i])) == expectedHash
  }

  /** The result of `update_row_with_version` on table `t` named `name`. */
  function VersionedUpdate(name: string, t: Table, pn: Value, updates: Row, expectedHash: string,
                           digest: seq<Pair> -> string): (o: Outcome)
    ensures o.Stale? <==> VersionKeyField(name) in t.columns && !Fresh(t, Eq(VersionKeyField(name), pn), expectedHash, digest)
    ensures o.Affected? ==> o.count == CountWhere(t.rows, Eq(VersionKeyField(name), pn))
    ensures o.Affected? <==> (Fresh(t, Eq(VersionKeyField(name), pn), expectedHash, digest)
                              && UpdateRuns(name, t, Eq(VersionKeyField(name), pn), UpdateSets(updates)))
  {
    var w := Eq(VersionKeyField(name), pn);
    if w[0].0 !in t.columns then Failed
    else if !Fresh(t, w, expectedHash, digest) then Stale
    else if !UpdateRuns(name, t, w, UpdateSets(updates)) then Failed
    else Affected(CountWhere(t.rows, w))
  }

  /** The result of `delete_row_with_version` on table `t` named `name`. */
  function VersionedDelete(name: string, t: Table, pn: Value, expectedHash: string,
                           digest: seq<Pair> -> string): (o: Outcome)
    ensures o.Stale? <==> VersionKeyField(name) in t.columns && !Fresh(t, Eq(VersionKeyField(name), pn), expectedHash, digest)
    ensures o.Affected? ==> o.count == CountWhere(t.rows, Eq(VersionKeyField(name), pn))
    ensures o.Affected? <==> VersionKeyField(name) in t.columns && Fresh(t, Eq(VersionKeyField(name), pn), expectedHash, digest)
  {
    var w := Eq(VersionKeyField(name), pn);
    if w[0].0 !in t.columns then Failed
    else if !Fresh(t, w, expectedHash, digest) then Stale
    else Affected(CountWhere(t.rows, w))
  }

  /** `update_row_with_version`: success iff the stored row is unchanged and the update selects a row. */
  method UpdateRowWithVersion(db: Database, name: string, pn: Value, updates: Row, expectedHash: string,
                              digest: seq<Pair> -> string) returns (ok: bool)
    modifies db
    ensures name !in old(db.tables) ==> !ok && db.tables == old(db.tables)
    ensures name in old(db.tables) ==>
      var t := old(db.tables)[name];
      var o := VersionedUpdate(name, t, pn, updates, expectedHash, digest);
      (ok <==> o.Affected? && o.count > 0)
      && db.tables == (if ok then old(db.tables)[name := Table(t.columns, UpdateWhere(t.rows, Eq(VersionKeyField(name), pn), UpdateSets(updates)))]
                       else old(db.tables))
  {
    if name !in db.tables {
      return false;
    }
    var t := db.tables[name];
    var w := Eq(VersionKeyField(name), pn);
    if w[0].0 !in t.columns {
      return false;
    }
    var current := FirstWhere(t.rows, w);
    if current.Some? && RowHash(digest, CursorRow(t.columns, t.rows[current.value])) != expectedHash {
      return false;
    }
    var sets := NormalizeUpdates(updates);
    assert sets == UpdateSets(updates);
    if !UpdateRuns(name, t, w, sets) {
      return false;
    }
    var affected := CountWhere(t.rows, w);
    if affected == 0 {
      UpdateNothingSelected(t.rows, w, sets);
      return false;
    }
    db.tables := db.tables[name := Table(t.columns, UpdateWhere(t.rows, w, sets))];
    ok := true;
  }

  /** `delete_row_with_version`: success iff the stored row is unchanged and the delete selects a row. */
  method DeleteRowWithVersion(db: Database, name: string, pn: Value, expectedHash: string,
                              digest: seq<Pair> -> string) returns (ok: bool)
    modifies db
    ensures name !in old(db.tables) ==> !ok && db.tables == old(db.tables)
    ensures name in old(db.tables) ==>
      var t := old(db.tables)[name];
      var o := VersionedDelete(name, t, pn, expectedHash, digest);
      (ok <==> o.Affected? && o.count > 0)
      && db.tables == (if ok then old(db.tables)[name := Table(t.columns, DeleteWhere(t.rows, Eq(VersionKeyField(name), pn)))]
                       else old(db.tables))
  {
    if name !in db.tables {
      return false;
    }
    var t := db.tables[name];
    var w := Eq(VersionKeyField(name), pn);
    if w[0].0 !in t.columns {
      return false;
    }
    var current := FirstWhere(t.rows, w);
    if current.Some? && RowHash(digest, CursorRow(t.columns, t.rows[current.value])) != expectedHash {
      return false;
    }
    var affected := CountWhere(t.rows, w);
    if affected == 0 {
      return false;
    }
    db.tables := db.tables[name := Table(t.columns, DeleteWhere(t.rows, w))];
    ok := true;
  }

  /** A row that changed since the caller hashed it blocks both calls, whatever the update. */
  lemma StaleRowRefused(name: string, t: Table, pn: Value, updates: Row, expectedHash: string,
                        digest: seq<Pair> -> string, i: nat)
    requires VersionKeyField(name) in t.columns && i < |t.rows|
    requires Holds(t.rows[i], Eq(VersionKeyField(name), pn))
    requires forall j :: 0 <= j < i ==> !Holds(t.rows[j], Eq(VersionKeyField(name), pn))
    requires RowHash(digest, CursorRow(t.columns, t.rows[i])) != expectedHash
    ensures VersionedUpdate(name, t, pn, updates, expectedHash, digest) == Stale
    ensures VersionedDelete(name, t, pn, expectedHash, digest) == Stale
  {
    match FirstWhere(t.rows, Eq(VersionKeyField(name), pn))
    case None =>
    case Some(f) =>
      assert !(f < i) && !(i < f);
  }

  /** A fresh row of an open table still cannot take a NULL `po_line`: the primary key refuses the update. */
  lemma NullKeyVersionedRefused(name: string, t: Table, pn: Value, updates: Row, expectedHash: string,
                                digest: seq<Pair> -> string)
    requires IsOpenTable(name) && CountWhere(t.rows, Eq(VersionKeyField(name), pn)) > 0
    requires "po_line" in updates && updates["po_line"] in {Null, Text("None"), Text("nan")}
    ensures !VersionedUpdate(name, t, pn, updates, expectedHash, digest).Affected?
  {
    NullKeyUpdateRefused(name, t, Eq(VersionKeyField(name), pn), updates);
  }

  /** The caller's hash of the stored row lets the delete through and removes that row. */
  lemma CurrentHashDeletes(name: string, t: Table, pn: Value, digest: seq<Pair> -> string, i: nat)
    requires VersionKeyField(name) in t.columns && i < |t.rows|
    requires Holds(t.rows[i], Eq(VersionKeyField(name), pn))
    requires forall j :: 0 <= j < i ==> !Holds(t.rows[j], Eq(VersionKeyField(name), pn))
    ensures VersionedDelete(name, t, pn, RowHash(digest, CursorRow(t.columns, t.rows[i])), digest).Affected?
    ensures VersionedDelete(name, t, pn, RowHash(digest, CursorRow(t.columns, t.rows[i])), digest).count > 0
  {
    match FirstWhere(t.rows, Eq(VersionKeyField(name), pn))
    case None =>
    case Some(f) =>
      assert !(f < i) && !(i < f);
  }

  /** On a table without an 'id' column (non_wf_open in its schema) the guarded calls always fail. */
  lemma NonWfOpenNeedsId(t: Table, pn: Value, updates: Row, expectedHash: string, digest: seq<Pair> -> string)
    requires "id" !in t.columns
    ensures VersionedUpdate("non_wf_open", t, pn, updates, expectedHash, digest) == Failed
    ensures VersionedDelete("non_wf_open", t, pn, expectedHash, digest) == Failed
  {
  }

  /**
   * The guarded calls and the duplicate check of the other manager key a
   * table by the same column, except non_wf_open: 'po_line' for the
   * duplicate check, 'id' for the guarded calls.
   */
  lemma KeyFieldsAgree(name: string)
    ensures VersionKeyField(name) == DuplicateKeyField(name) <==> name != "non_wf_open"
    ensures VersionKeyField(name) == "pn" <==> IsClosedTable(name)
  {
  }

  // ---------------------------------------------------------------------------
  // insert_row

  /** `cleaned_data` here: every key of `data`, its value cleaned, with no column filtering. */
  function CleanedAll(data: Row): (r: Row)
    ensures r.Keys == data.Keys
    ensures forall k :: k in r ==> r[k] == CleanValue(data[k])
  {
    map k | k in data :: CleanValue(data[k])
  }

  /** The loop that builds `cleaned_data`. */
  method CleanAll(data: Row) returns (cleaned: Row)
    ensures cleaned == CleanedAll(data)
  {
    cleaned := map[];
    var todo := data.Keys;
    while todo != {}
      invariant todo <= data.Keys
      invariant cleaned.Keys == data.Keys - todo
      invariant forall k :: k in cleaned ==> cleaned[k] == CleanValue(data[k])
      decreases |todo|
    {
      var k :| k in todo;
      todo := todo - {k};
      cleaned := cleaned[k := CleanValue(data[k])];
    }
  }

  /** When every key of `data` is a column, both managers store the same cleaned row. */
  lemma CleaningsAgree(data: Row, columns: seq<string>)
    requires forall k :: k in data ==> k in columns
    ensures CleanedAll(data) == CleanedRow(data, columns)
  {
  }

  /**
   * A plain `INSERT` of the cleaned row: refused when it names no column or
   * a column the table lacks, and on the open tables when it breaks the
   * `po_line` primary key (NULL or already present).
   */
  function PlainInsert(name: string, t: Table, cleaned: Row): (r: Option<Table>)
    ensures r.Some? ==> r.value == Table(t.columns, t.rows + [cleaned])
    ensures r.Some? ==> cleaned != map[] && Fits(t, cleaned)
    ensures r.Some? && IsOpenTable(name) ==> KeyOf(cleaned) != Null && KeyOf(cleaned) !in Keys(t.rows)
  {
    if cleaned == map[] || !Fits(t, cleaned) then None
    else if IsOpenTable(name) && (KeyOf(cleaned) == Null || KeyOf(cleaned) in Keys(t.rows)) then None
    else Some(Table(t.columns, t.rows + [cleaned]))
  }

  /** `insert_row`: every key of `data` is inserted after cleaning, with no column filtering. */
  method InsertRow(db: Database, name: string, data: Row) returns (ok: bool)
    modifies db
    ensures name !in old(db.tables) ==> !ok && db.tables == old(db.tables)
    ensures name in old(db.tables) ==>
      var r := PlainInsert(name, old(db.tables)[name], CleanedAll(data));
      (ok <==> r.Some?) && db.tables == (if ok then old(db.tables)[name := r.value] else old(db.tables))
  {
    if name !in db.tables {
      return false;
    }
    var cleaned := CleanAll(data);
    match PlainInsert(name, db.tables[name], cleaned)
    case None =>
      ok := false;
    case Some(t') =>
      db.tables := db.tables[name := t'];
      ok := true;
  }

  /** A plain insert on an open table keeps `po_line` a primary key and adds the new key. */
  lemma PlainInsertKeys(name: string, t: Table, cleaned: Row)
    requires IsOpenTable(name) && KeysUnique(t.rows) && PlainInsert(name, t, cleaned).Some?
    ensures KeysUnique(PlainInsert(name, t, cleaned).value.rows)
    ensures Keys(PlainInsert(name, t, cleaned).value.rows) == Keys(t.rows) + {KeyOf(cleaned)}
  {
    UpsertNew(t, cleaned);
    UpsertKeys(t, cleaned);
  }

  /** Unlike the other manager, a key the table does not have makes the whole insert fail. */
  lemma UnknownColumnRefused(name: string, t: Table, cleaned: Row, c: string)
    requires c in cleaned && c !in t.columns
    ensures PlainInsert(name, t, cleaned).None?
  {
  }
}
