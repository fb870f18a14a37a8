/** A connection's transaction: rows buffered per table over the shared storage, the
    overlay its reads see, and COMMIT as one batch. */
module Transactions {
  import opened Basics
  import opened Values
  import opened LogFormat
  import opened Tables
  import opened Engine
  import opened Projection
  import opened Pending
  import opened Storage

  // ---- key lookup, by index and by search ----

  /** The first row with this key, found by looking at every row. */
  function FindKey(rows: seq<Row>, k: nat, key: Value): Option<Row> {
    if rows == [] then None
    else if k < |rows[0]| && rows[0][k] == key then Some(rows[0])
    else FindKey(rows[1..], k, key)
  }

  lemma {:induction false} FindKeyAppend(a: seq<Row>, b: seq<Row>, k: nat, key: Value)
    ensures FindKey(a + b, k, key) == if FindKey(a, k, key).Some? then FindKey(a, k, key) else FindKey(b, k, key)
  {
    if a == [] {
      assert a + b == b;
    } else {
      assert (a + b)[1..] == a[1..] + b;
      FindKeyAppend(a[1..], b, k, key);
    }
  }

  lemma {:induction false} FindKeyNone(rows: seq<Row>, k: nat, key: Value)
    requires forall i :: 0 <= i < |rows| ==> !(k < |rows[i]| && rows[i][k] == key)
    ensures FindKey(rows, k, key) == None
  {
    if rows != [] {
      FindKeyNone(rows[1..], k, key);
    }
  }

  /** The index finds what a search of all rows finds. */
  lemma IndexFinds(t: TableData, key: Value)
    requires TableInv(t) && t.keyIndex.Some?
    ensures LookupKey(t, key) == FindKey(t.rows, t.keyIndex.value, key)
  {
    var k := t.keyIndex.value;
    if key in t.index {
      var p := t.index[key];
      assert t.rows == t.rows[..p] + t.rows[p..];
      FindKeyNone(t.rows[..p], k, key);
      FindKeyAppend(t.rows[..p], t.rows[p..], k, key);
    } else {
      FindKeyNone(t.rows, k, key);
    }
  }

  /** The key column, as the transaction works it out from the schema. */
  function SchemaKey(schema: TableSchema): Option<nat> {
    if schema.primaryKey.Some? then ColumnIndex(schema.columns, schema.primaryKey.value) else None
  }

  lemma SchemaKeyIsKeyIndex(t: TableData)
    requires TableInv(t)
    ensures SchemaKey(t.schema) == t.keyIndex
  {}

  // ---- the transaction ----

  class Transaction {
    const storage: InMemoryStorage
    var pending: map<Text, seq<Row>>
    var locks: seq<Text>
    var lockedTables: set<Text>

    ghost predicate Valid()
      reads this, storage, storage.tables.Values
    {
      && storage.Valid()
      && (forall n :: n in storage.tables ==> TableInv(storage.tables[n].Data()))
      && AllPendingFit(storage.TablesData(), pending)
      && lockedTables == (set t | t in locks)
    }

    constructor (storage: InMemoryStorage)
      requires storage.Valid() && forall n :: n in storage.tables ==> TableInv(storage.tables[n].Data())
      ensures Valid() && this.storage == storage && pending == map[] && locks == []
    {
      this.storage := storage;
      pending := map[];
      locks := [];
      lockedTables := {};
    }

    /** `ensure_locked`; `granted` says whether the lock came before the timeout. */
    method EnsureLocked(table: Text, granted: bool) returns (r: Result<()>)
      requires Valid()
      modifies this
      ensures Valid() && pending == old(pending)
      ensures r.Ok? <==> table in old(lockedTables) || granted
      ensures lockedTables == old(lockedTables) + (if r.Ok? then {table} else {})
      ensures locks == old(locks) + (if r.Ok? && table !in old(lockedTables) then [table] else [])
    {
      hide TableInv, AllPendingFit;
      if table in lockedTables {
        assert lockedTables + {table} == lockedTables;
        return Ok(());
      }
      if !granted {
        return Err(Execution);
      }
      lockedTables := lockedTables + {table};
      locks := locks + [table];
      r := Ok(());
    }

    /** Does a pending row of the table already have this key? */
    method AlreadyPending(rows: seq<Row>, k: nat, key: Value) returns (found: bool)
      requires forall i :: 0 <= i < |rows| ==> k < |rows[i]|
      ensures found <==> exists i :: 0 <= i < |rows| && rows[i][k] == key
    {
      for i := 0 to |rows|
        invariant forall j :: 0 <= j < i ==> rows[j][k] != key
      {
        if rows[i][k] == key {
          return true;
        }
      }
      found := false;
    }

    /** The checks of `insert_row`. */
    method Check(table: Text, row: Row) returns (ok: bool)
      requires Valid()
      ensures ok <==>
        table in storage.TablesData() && Acceptable(storage.TablesData()[table], PendingRows(pending, table), row)
    {
      hide TableInv, PendingFits;
      if table !in storage.tables || |row| != |storage.tables[table].schema.columns| {
        return false;
      }
      ghost var t := storage.tables[table].Data();
      assert storage.TablesData()[table] == t;
      var rows := PendingRows(pending, table);
      SchemaKeyIsKeyIndex(t);
      var k := SchemaKey(storage.tables[table].schema);
      if k.None? {
        return true;
      }
      var key := row[k.value];
      var committed := storage.LookupByPrimaryKey(table, key);
      LookupIsIndex(t, key);
      NothingPendingFits(t);
      PendingWidths(t, rows);
      var already := AlreadyPending(rows, k.value, key);
      ok := committed.value.None? && !already;
    }

    /** `insert_row`: buffer the row, or refuse it and change nothing. */
    method InsertRow(table: Text, row: Row) returns (r: Result<()>)
      requires Valid()
      modifies this
      ensures Valid() && locks == old(locks) && lockedTables == old(lockedTables)
      ensures r.Ok? <==>
        table in storage.TablesData() && Acceptable(storage.TablesData()[table], PendingRows(old(pending), table), row)
      ensures pending == if r.Ok? then old(pending)[table := PendingRows(old(pending), table) + [row]] else old(pending)
    {
      hide TableInv, AllPendingFit, Acceptable, PendingRows;
      var ok := Check(table, row);
      if !ok {
        return Err(Execution);
      }
      AcceptedFits(storage.TablesData(), pending, table, row);
      pending := pending[table := PendingRows(pending, table) + [row]];
      r := Ok(());
    }

    /** `insert_rows` of a transaction: one `insert_row` after the other. */
    method InsertRows(rows: seq<(Text, Row)>) returns (r: Result<()>)
      requires Valid()
      modifies this
      ensures Valid() && locks == old(locks) && lockedTables == old(lockedTables)
      ensures (pending, r.Ok?) == BufferAll(storage.TablesData(), old(pending), rows)
    {
      hide Acceptable, TableInv, AllPendingFit;
      assert rows[0..] == rows;
      for i := 0 to |rows|
        invariant Valid() && locks == old(locks) && lockedTables == old(lockedTables)
        invariant BufferAll(storage.TablesData(), old(pending), rows)
               == BufferAll(storage.TablesData(), pending, rows[i..])
      {
        assert rows[i..][0] == rows[i] && rows[i..][1..] == rows[i + 1..];
        var one := InsertRow(rows[i].0, rows[i].1);
        if one.Err? {
          return one;
        }
      }
      r := Ok(());
    }

    /** `scan`: committed rows, then this transaction's own. */
    method Scan(table: Text) returns (r: Result<seq<Row>>)
      requires Valid()
      ensures r == if table in storage.TablesData()
                   then Ok(storage.TablesData()[table].rows + PendingRows(pending, table)) else Err(Execution)
    {
      if table !in storage.tables {
        return Err(Execution);
      }
      hide TableInv, AllPendingFit;
      var rows := storage.tables[table].rows;
      assert storage.TablesData()[table].rows == rows == rows + [];
      if table in pending {
        rows := rows + pending[table];
      }
      r := Ok(rows);
    }

    /** `scan_filtered` is the filtered scan. */
    method ScanFiltered(table: Text, filter: Row -> bool) returns (r: Result<seq<Row>>)
      requires Valid()
      ensures r == if table in storage.TablesData()
                   then Ok(Filter(storage.TablesData()[table].rows + PendingRows(pending, table), filter))
                   else Err(Execution)
    {
      hide TableInv, AllPendingFit, Filter;
      var committed := storage.ScanFiltered(table, filter);
      if committed.Err? {
        return committed;
      }
      var rows := committed.value;
      ghost var stored := storage.TablesData()[table].rows;
      FilterAppend(stored, PendingRows(pending, table), filter);
      var mine := Accepted(PendingRows(pending, table), filter);
      r := Ok(rows + mine);
    }

    method Accepted(rows: seq<Row>, filter: Row -> bool) returns (mine: seq<Row>)
      ensures mine == Filter(rows, filter)
    {
      mine := [];
      for i := 0 to |rows|
        invariant mine == Filter(rows[..i], filter)
      {
        assert rows[..i + 1] == rows[..i] + [rows[i]];
        FilterAppend(rows[..i], [rows[i]], filter);
        if filter(rows[i]) {
          mine := mine + [rows[i]];
        }
      }
      assert rows[..|rows|] == rows;
    }

    /** `lookup_by_primary_key` finds what searching the scan would find. */
    method LookupByPrimaryKey(table: Text, key: Value) returns (r: Result<Option<Row>>)
      requires Valid()
      ensures r.Err? <==> table !in storage.TablesData()
      ensures r.Ok? ==>
        var t := storage.TablesData()[table];
        r.value == if t.keyIndex.None? then None
                   else FindKey(t.rows + PendingRows(pending, table), t.keyIndex.value, key)
    {
      hide TableInv, PendingFits, FindKey;
      var committed := storage.LookupByPrimaryKey(table, key);
      if committed.Err? {
        return Err(committed.error);
      }
      ghost var t := storage.tables[table].Data();
      assert storage.TablesData()[table] == t && TableInv(t);
      LookupFacts(t, key);
      SchemaKeyIsKeyIndex(t);
      var k := SchemaKey(storage.tables[table].schema);
      var rows := PendingRows(pending, table);
      if k.Some? {
        FindKeyAppend(t.rows, rows, k.value, key);
      }
      if committed.value.Some? {
        return committed;
      }
      if k.None? {
        return Ok(None);
      }
      NothingPendingFits(t);
      assert PendingFits(t, rows);
      PendingWidths(t, rows);
      var found := FindPending(rows, k.value, key);
      r := Ok(found);
    }

    method FindPending(rows: seq<Row>, k: nat, key: Value) returns (r: Option<Row>)
      requires forall i :: 0 <= i < |rows| ==> k < |rows[i]|
      ensures r == FindKey(rows, k, key)
    {
      assert rows[0..] == rows;
      for i := 0 to |rows|
        invariant FindKey(rows, k, key) == FindKey(rows[i..], k, key)
      {
        assert rows[i..][1..] == rows[i + 1..];
        if rows[i][k] == key {
          return Some(rows[i]);
        }
      }
      r := None;
    }

    /** The buffered rows as one list, tables in whatever order the map enumerates. */
    method ListPending() returns (rows: seq<(Text, Row)>)
      ensures Lists(rows, pending)
    {
      hide RowsFor, PendingRows;
      rows := [];
      var todo := pending.Keys;
      NothingListed(pending);
      while todo != {}
        invariant todo <= pending.Keys && Listed(rows, pending, todo)
        decreases |todo|
      {
        var table: Text :| table in todo;
        var own := AppendTagged(rows, table, pending[table]);
        ListOneMore(rows, pending, todo, table);
        rows := own;
        todo := todo - {table};
      }
      AllListed(rows, pending);
    }

    /** Each row of one table, with the table's name. */
    method AppendTagged(rows: seq<(Text, Row)>, table: Text, own: seq<Row>) returns (all: seq<(Text, Row)>)
      ensures all == rows + Tagged(table, own)
    {
      all := rows;
      for i := 0 to |own|
        invariant all == rows + Tagged(table, own[..i])
      {
        assert Tagged(table, own[..i]) + [(table, own[i])] == Tagged(table, own[..i + 1]);
        all := all + [(table, own[i])];
      }
      assert own[..|own|] == own;
    }

    /** `commit`: one batch on the shared storage.  It can only fail because the log does;
        once it succeeds, every table is what a scan of this transaction showed. */
    method Commit(logWrites: bool) returns (r: Result<()>)
      requires Valid()
      modifies storage, storage.tables.Values
      ensures storage.Valid()
      ensures r.Err? ==> !logWrites && storage.State() == old(storage.State())
      ensures r.Ok? ==>
        && storage.tables == old(storage.tables)
        && forall t :: t in storage.TablesData() ==>
             storage.TablesData()[t].rows == old(storage.TablesData()[t].rows) + PendingRows(pending, t)
    {
      hide Perform, TableInv;
      var rows := ListPending();
      ghost var was := storage.State();
      ListedInsertable(was.data.tables, pending, rows);
      PerformBatch(was, rows, logWrites);
      r := storage.InsertRows(rows, logWrites);
      if r.Ok? {
        forall t | t in storage.TablesData()
          ensures storage.TablesData()[t].rows == was.data.tables[t].rows + PendingRows(pending, t)
        {
          assert RowsFor(rows, t) == PendingRows(pending, t);
          PushAllRows(was.data.tables[t], RowsFor(rows, t));
        }
      }
    }
  }

  /** All tables but those in `todo` have been listed. */
  ghost predicate Listed(rows: seq<(Text, Row)>, pending: map<Text, seq<Row>>, todo: set<Text>) {
    forall t :: RowsFor(rows, t) == if t in todo then [] else PendingRows(pending, t)
  }

  lemma NothingListed(pending: map<Text, seq<Row>>)
    ensures Listed([], pending, pending.Keys)
  {}

  lemma AllListed(rows: seq<(Text, Row)>, pending: map<Text, seq<Row>>)
    requires Listed(rows, pending, {})
    ensures Lists(rows, pending)
  {
    hide RowsFor;
  }

  lemma ListOneMore(rows: seq<(Text, Row)>, pending: map<Text, seq<Row>>, todo: set<Text>, table: Text)
    requires Listed(rows, pending, todo) && table in todo && todo <= pending.Keys
    ensures Listed(rows + Tagged(table, pending[table]), pending, todo - {table})
  {
    hide RowsFor;
    forall t
      ensures RowsFor(rows + Tagged(table, pending[table]), t) == if t in todo - {table} then [] else PendingRows(pending, t)
    {
      RowsForAppend(rows, Tagged(table, pending[table]), t);
      TaggedRows(table, pending[table], t);
      assert RowsFor(rows, t) + [] == RowsFor(rows, t) && [] + pending[table] == pending[table];
    }
  }

  lemma PerformBatch(live: Live, rows: seq<(Text, Row)>, logWrites: bool)
    requires BatchInsertable(live.data.tables, rows)
    ensures var after := Perform(live, OpInsertRows(rows), logWrites).data.tables;
      if rows == [] || logWrites then
        after.Keys == live.data.tables.Keys
        && forall t :: t in after ==> after[t] == PushAll(live.data.tables[t], RowsFor(rows, t))
      else Perform(live, OpInsertRows(rows), logWrites) == live
  {
    hide ApplyRows, PushAll, RowsFor;
    ApplyRowsEach(live.data.tables, rows);
    if rows == [] {
      assert Effect(live.data, OpInsertRows(rows)).tables == ApplyRows(live.data.tables, rows);
    }
  }

  lemma LookupIsIndex(t: TableData, key: Value)
    requires TableInv(t)
    ensures LookupKey(t, key).Some? <==> key in t.index
  {}

  lemma LookupFacts(t: TableData, key: Value)
    requires TableInv(t)
    ensures t.keyIndex.None? ==> LookupKey(t, key).None?
    ensures t.keyIndex.Some? ==> LookupKey(t, key) == FindKey(t.rows, t.keyIndex.value, key)
  {
    hide FindKey, IndexExact;
    if t.keyIndex.Some? {
      IndexFinds(t, key);
    }
  }

  lemma PendingWidths(t: TableData, rows: seq<Row>)
    requires PendingFits(t, rows)
    ensures forall i :: 0 <= i < |rows| ==> |rows[i]| == |t.schema.columns|
  {
    assert forall i :: 0 <= i < |rows| ==> HasWidth(t, rows[i]);
  }
}
