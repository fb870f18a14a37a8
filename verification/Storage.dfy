/** The storage engine as it runs: tables as objects updated in place, and
    `InMemoryStorage` with its log-before-memory methods, each proved against the
    operations of `Engine`. */
module Storage {
  import opened Basics
  import opened Values
  import opened LogFormat
  import opened Conversions
  import opened Tables
  import opened Engine
  import opened Soundness

  class Table {
    var schema: TableSchema
    var keyIndex: Option<nat>
    var rows: seq<Row>
    var index: map<Value, nat>
    var counter: Option<Counter>

    ghost function Data(): TableData
      reads this
    {
      TableData(schema, keyIndex, rows, index, counter)
    }

    /** `Table::new`. */
    constructor (columns: seq<ColumnSchema>, primaryKey: Option<Text>)
      ensures Data() == NewTable(columns, primaryKey)
    {
      schema := TableSchema(columns, primaryKey);
      keyIndex := if primaryKey.Some? then ColumnIndex(columns, primaryKey.value) else None;
      rows := [];
      index := map[];
      counter := match AutoIndex(columns) case Some(i) => Some(Counter(i, 1)) case None => None;
    }

    /** `push_trusted`: index, counter and rows are updated one after the other. */
    method PushTrusted(row: Row)
      modifies this
      ensures Data() == Push(old(Data()), row)
    {
      if keyIndex.Some? && keyIndex.value < |row| {
        index := index[row[keyIndex.value] := |rows|];
      }
      if counter.Some? && counter.value.column < |row| {
        var v := row[counter.value.column];
        if v.Int? {
          counter := Some(counter.value.(next := Max(counter.value.next, WrapI64(v.n + 1))));
        }
      }
      rows := rows + [row];
    }

    /** `check_insertable`. */
    method CheckInsertable(row: Row) returns (ok: bool)
      ensures ok <==> KeyFree(Data(), row)
    {
      ok := true;
      if keyIndex.Some? && keyIndex.value < |row| {
        ok := row[keyIndex.value] !in index;
      }
    }
  }

  // ---- ALTER TABLE ----

  /** A new table with the given rows, pushed one by one. */
  method Rebuild(columns: seq<ColumnSchema>, primaryKey: Option<Text>, rows: seq<Row>) returns (t: Table)
    ensures fresh(t) && t.Data() == Build(TableSchema(columns, primaryKey), rows)
  {
    hide Push;
    t := new Table(columns, primaryKey);
    for i := 0 to |rows|
      invariant t.Data() == Build(TableSchema(columns, primaryKey), rows[..i])
    {
      assert rows[..i + 1][..i] == rows[..i];
      t.PushTrusted(rows[i]);
    }
    assert rows[..|rows|] == rows;
  }

  /** The MODIFY COLUMN loop: retype each row and push it, stopping at the first failure. */
  method RebuildModified(columns: seq<ColumnSchema>, primaryKey: Option<Text>, rows: seq<Row>, idx: nat, col: ColumnSchema)
    returns (r: Result<Table>)
    requires forall i :: 0 <= i < |rows| ==> idx < |rows[i]|
    ensures r.Err? ==> ModifyRows(rows, idx, col) == Err(r.error)
    ensures r.Ok? ==>
      && fresh(r.value) && ModifyRows(rows, idx, col).Ok?
      && r.value.Data() == Build(TableSchema(columns, primaryKey), ModifyRows(rows, idx, col).value)
  {
    hide Push;
    var t := new Table(columns, primaryKey);
    for i := 0 to |rows|
      invariant ModifyRows(rows[..i], idx, col).Ok?
      invariant t.Data() == Build(TableSchema(columns, primaryKey), ModifyRows(rows[..i], idx, col).value)
    {
      assert rows[..i + 1][..i] == rows[..i];
      ghost var done := ModifyRows(rows[..i], idx, col).value;
      var row := ModifyRow(rows[i], idx, col);
      if row.Err? {
        ModifyStops(rows, i, idx, col);
        return Err(row.error);
      }
      assert (done + [row.value])[..i] == done;
      t.PushTrusted(row.value);
    }
    assert rows[..|rows|] == rows;
    r := Ok(t);
  }

  /** The first row that cannot be converted decides the outcome. */
  lemma {:induction false} ModifyStops(rows: seq<Row>, i: nat, idx: nat, col: ColumnSchema)
    requires i < |rows| && forall k :: 0 <= k < |rows| ==> idx < |rows[k]|
    requires ModifyRows(rows[..i], idx, col).Ok? && ModifyRow(rows[i], idx, col).Err?
    ensures ModifyRows(rows, idx, col) == Err(ModifyRow(rows[i], idx, col).error)
    decreases |rows|
  {
    var n := |rows| - 1;
    if i < n {
      assert rows[..n][..i] == rows[..i];
      ModifyStops(rows[..n], i, idx, col);
    }
  }

  /** The ADD PRIMARY KEY loop: refuse NULL and repeated keys while rebuilding. */
  method RebuildKeyed(columns: seq<ColumnSchema>, primaryKey: Option<Text>, rows: seq<Row>, idx: nat)
    returns (r: Option<Table>)
    requires forall i :: 0 <= i < |rows| ==> idx < |rows[i]|
    ensures r.Some? <==> KeysUsable(rows, idx)
    ensures r.Some? ==> fresh(r.value) && r.value.Data() == Build(TableSchema(columns, primaryKey), rows)
  {
    hide Push;
    var t := new Table(columns, primaryKey);
    var seen: set<Value> := {};
    for i := 0 to |rows|
      invariant KeysUsable(rows[..i], idx)
      invariant seen == set k | 0 <= k < i :: rows[k][idx]
      invariant t.Data() == Build(TableSchema(columns, primaryKey), rows[..i])
    {
      assert rows[..i + 1][..i] == rows[..i];
      if rows[i][idx].Null? || rows[i][idx] in seen {
        return None;
      }
      assert forall k :: 0 <= k < i ==> rows[k][idx] in seen;
      seen := seen + {rows[i][idx]};
      t.PushTrusted(rows[i]);
    }
    assert rows[..|rows|] == rows;
    r := Some(t);
  }

  /** `compute_altered_table`: a new table, or an error; the current one stays as it is. */
  method ComputeAltered(t: Table, change: SchemaChange) returns (r: Result<Table>)
    requires Rectangular(t.Data())
    ensures r.Err? ==> Alter(t.Data(), change) == Err(r.error)
    ensures r.Ok? ==> fresh(r.value) && Alter(t.Data(), change) == Ok(r.value.Data())
  {
    hide Build, ModifyRows, ColumnIndex;
    var columns, pk, rows := t.schema.columns, t.schema.primaryKey, t.rows;
    match change
    case AddColumn(column, isPk) =>
      if ColumnIndex(columns, column.name).Some? { return Err(Execution); }
      if rows != [] {
        if !column.nullable { return Err(Execution); }
        if isPk { return Err(Execution); }
      }
      if isPk && pk.Some? { return Err(Execution); }
      var made := Rebuild(columns + [column], if isPk then Some(column.name) else pk, MapRows(rows, row => row + [Null]));
      return Ok(made);
    case DropColumn(name) =>
      var at := ColumnIndex(columns, name);
      if at.None? { return Err(Execution); }
      if |columns| == 1 { return Err(Execution); }
      var idx := at.value;
      var made := Rebuild(columns[..idx] + columns[idx + 1..], if pk == Some(name) then None else pk,
                          MapRows(rows, row => WithoutCell(row, idx)));
      return Ok(made);
    case ModifyColumn(col) =>
      var at := ColumnIndex(columns, col.name);
      if at.None? { return Err(Execution); }
      if col.autoIncrement && pk != Some(col.name) { return Err(Unsupported); }
      r := RebuildModified(columns[at.value := col], pk, rows, at.value, col);
    case AddPrimaryKey(name) =>
      if pk.Some? { return Err(Execution); }
      var at := ColumnIndex(columns, name);
      if at.None? { return Err(Execution); }
      var made := RebuildKeyed(columns[at.value := columns[at.value].(nullable := false)], Some(name), rows, at.value);
      r := if made.Some? then Ok(made.value) else Err(Execution);
    case DropPrimaryKey =>
      if pk.None? { return Err(Execution); }
      var made := Rebuild(ClearAuto(columns, pk.value), None, rows);
      return Ok(made);
  }

  // ---- InMemoryStorage ----

  /** `log` is the sequence of entries the log writer has acknowledged; each method takes
      the outcome of its own log append as `logWrites`. */
  class InMemoryStorage {
    var tables: map<Text, Table>
    var databases: set<Text>
    var log: seq<Entry>

    /** No two names share a table object. */
    ghost predicate Valid()
      reads this
    {
      forall a, b :: a in tables && b in tables && a != b ==> tables[a] != tables[b]
    }

    ghost function TablesData(): map<Text, TableData>
      reads this, tables.Values
    {
      map n | n in tables :: tables[n].Data()
    }

    ghost function State(): Live
      reads this, tables.Values
    {
      Live(StorageData(TablesData(), databases), log)
    }

    constructor ()
      ensures Valid() && State() == Live(EMPTY, [])
    {
      tables := map[];
      databases := {};
      log := [];
      new;
      assert TablesData() == map[];
    }

    method CreateTable(name: Text, columns: seq<ColumnSchema>, primaryKey: Option<Text>, logWrites: bool)
      returns (r: Result<()>)
      requires Valid()
      modifies this
      ensures Valid() && State() == Perform(old(State()), OpCreateTable(name, columns, primaryKey), logWrites)
      ensures r.Ok? <==> logWrites && !Validate(old(State()).data, OpCreateTable(name, columns, primaryKey)).Refuse?
    {
      hide Alter, ApplyRows, BatchInsertable, RowInsertable, Reserve, Rectangular, NewTable, ColumnIndex;
      if primaryKey.Some? && ColumnIndex(columns, primaryKey.value).None? {
        return Err(Execution);
      }
      if name in tables {
        return Err(Execution);
      }
      if !logWrites {
        return Err(Io);
      }
      log := log + [Entry.CreateTable(name, columns, primaryKey)];
      var t := new Table(columns, primaryKey);
      tables := tables[name := t];
      assert TablesData() == old(TablesData())[name := NewTable(columns, primaryKey)];
      r := Ok(());
    }

    method AlterTable(name: Text, change: SchemaChange, logWrites: bool) returns (r: Result<()>)
      requires Valid() && AllRectangular(State().data.tables)
      modifies this
      ensures Valid() && State() == Perform(old(State()), OpAlterTable(name, change), logWrites)
      ensures r.Ok? <==> logWrites && !Validate(old(State()).data, OpAlterTable(name, change)).Refuse?
    {
      hide Alter, Rectangular, Perform, Validate;
      ghost var was := State();
      PerformAlter(was, name, change, logWrites);
      if name !in tables {
        return Err(Execution);
      }
      assert was.data.tables[name] == tables[name].Data();
      var trial := ComputeAltered(tables[name], change);
      if trial.Err? {
        return Err(trial.error);
      }
      if !logWrites {
        return Err(Io);
      }
      log := log + [Entry.AlterTable(name, change)];
      assert TablesData() == was.data.tables;
      ReplaceAltered(name, change);
      r := Ok(());
    }

    /** Recompute the altered table and put it in place of the current one, if the change
        still validates. */
    method ReplaceAltered(table: Text, change: SchemaChange)
      requires Valid() && (table in tables ==> Rectangular(tables[table].Data()))
      modifies this
      ensures Valid() && fresh(tables.Values - old(tables.Values)) && databases == old(databases) && log == old(log)
      ensures var was := old(TablesData());
        TablesData() == if table in was && Alter(was[table], change).Ok?
                        then was[table := Alter(was[table], change).value] else was
    {
      hide Alter, Rectangular;
      ghost var was := TablesData();
      if table in tables {
        assert was[table] == tables[table].Data();
        var altered := ComputeAltered(tables[table], change);
        if altered.Ok? {
          tables := tables[table := altered.value];
          assert TablesData() == was[table := altered.value.Data()];
        }
      }
    }

    /** The change to the tables' data when one table object changes. */
    twostate lemma OneTableChanged(name: Text)
      requires old(Valid()) && tables == old(tables) && name in tables
      requires forall n :: n in tables && n != name ==> tables[n].Data() == old(tables[n].Data())
      ensures TablesData() == old(TablesData())[name := tables[name].Data()]
    {}

    /** The validation loop of `insert_rows`, with the keys seen so far in this batch. */
    method ValidateRows(rows: seq<(Text, Row)>) returns (ok: bool)
      requires Valid()
      ensures ok <==> BatchInsertable(TablesData(), rows)
    {
      hide Clash, KeyFree;
      var seen: map<Text, set<Value>> := map[];
      for i := 0 to |rows|
        invariant BatchInsertable(TablesData(), rows[..i])
        invariant SeenExactly(TablesData(), rows[..i], seen)
      {
        var (name, row) := rows[i];
        assert rows[..i + 1] == rows[..i] + [rows[i]];
        if name !in tables || |row| != |tables[name].schema.columns| {
          RowRefused(TablesData(), rows, i);
          return false;
        }
        assert TablesData()[name] == tables[name].Data();
        var free := tables[name].CheckInsertable(row);
        if !free {
          RowRefused(TablesData(), rows, i);
          return false;
        }
        var keyIndex := tables[name].keyIndex;
        if keyIndex.Some? && keyIndex.value < |row| {
          var key, keys := row[keyIndex.value], if name in seen then seen[name] else {};
          if key in keys {
            RepeatRefused(TablesData(), rows, i, seen);
            return false;
          }
          BatchGrows(TablesData(), rows[..i], rows[i], seen);
          seen := seen[name := keys + {key}];
        } else {
          BatchGrows(TablesData(), rows[..i], rows[i], seen);
        }
      }
      assert rows[..|rows|] == rows;
      ok := true;
    }

    method InsertRows(rows: seq<(Text, Row)>, logWrites: bool) returns (r: Result<()>)
      requires Valid()
      modifies this, tables.Values
      ensures Valid() && tables == old(tables)
      ensures State() == Perform(old(State()), OpInsertRows(rows), logWrites)
      ensures r.Ok? <==> rows == [] || (logWrites && BatchInsertable(old(TablesData()), rows))
    {
      hide BatchInsertable, Push, Alter, RowInsertable, Reserve, Rectangular, NewTable, ColumnIndex;
      if rows == [] {
        return Ok(());
      }
      var ok := ValidateRows(rows);
      if !ok {
        return Err(Execution);
      }
      if !logWrites {
        return Err(Io);
      }
      ghost var was := TablesData();
      log := log + [Entry.Transaction(rows)];
      assert TablesData() == was;
      ApplyPairs(rows);
      r := Ok(());
    }

    method InsertRow(table: Text, row: Row, logWrites: bool) returns (r: Result<()>)
      requires Valid()
      modifies this, tables.Values
      ensures Valid() && State() == Perform(old(State()), OpInsertRow(table, row), logWrites)
      ensures r.Ok? <==> logWrites && RowInsertable(old(TablesData()), (table, row))
    {
      hide Push, Perform, KeyFree;
      ghost var was := State();
      PerformInsert(was, table, row, logWrites);
      if table !in tables || |row| != |tables[table].schema.columns| {
        return Err(Execution);
      }
      assert was.data.tables[table] == tables[table].Data();
      var free := tables[table].CheckInsertable(row);
      if !free {
        return Err(Execution);
      }
      if !logWrites {
        return Err(Io);
      }
      log := log + [Entry.InsertRow(table, row)];
      label Before:
      assert TablesData() == was.data.tables;
      tables[table].PushTrusted(row);
      OneTableChanged@Before(table);
      r := Ok(());
    }

    method NextAutoIncrement(table: Text) returns (r: Result<i64>)
      requires Valid()
      modifies this, tables.Values
      ensures Valid() && State() == Perform(old(State()), OpReserve(table), true)
      ensures r == if table in old(TablesData()) && old(TablesData())[table].counter.Some?
                   then Ok(old(TablesData())[table].counter.value.next) else Err(Execution)
    {
      hide Perform;
      PerformReserve(State(), table);
      if table !in tables {
        return Err(Execution);
      }
      var t := tables[table];
      if t.counter.None? {
        return Err(Execution);
      }
      var value: int := t.counter.value.next;
      t.counter := Some(t.counter.value.(next := WrapI64(value + 1)));
      OneTableChanged(table);
      r := Ok(value);
    }

    method CreateDatabase(name: Text, ifNotExists: bool, logWrites: bool) returns (r: Result<()>)
      requires Valid()
      modifies this
      ensures Valid() && State() == Perform(old(State()), OpCreateDatabase(name, ifNotExists), logWrites)
      ensures r.Ok? <==> if name in old(databases) then ifNotExists else logWrites
    {
      hide Alter, ApplyRows, BatchInsertable, RowInsertable, Reserve, Rectangular, NewTable, ColumnIndex;
      if name in databases {
        assert databases + {name} == databases;
        return if ifNotExists then Ok(()) else Err(Execution);
      }
      if !logWrites {
        return Err(Io);
      }
      log := log + [Entry.CreateDatabase(name)];
      databases := databases + {name};
      r := Ok(());
    }

    method DropDatabase(name: Text, ifExists: bool, logWrites: bool) returns (r: Result<()>)
      requires Valid()
      modifies this
      ensures Valid() && State() == Perform(old(State()), OpDropDatabase(name, ifExists), logWrites)
      ensures r.Ok? <==> (name in old(databases) || ifExists) && logWrites
    {
      hide Alter, ApplyRows, BatchInsertable, RowInsertable, Reserve, Rectangular, NewTable, ColumnIndex;
      if name !in databases && !ifExists {
        return Err(Execution);
      }
      if !logWrites {
        return Err(Io);
      }
      log := log + [Entry.DropDatabase(name)];
      databases := databases - {name};
      r := Ok(());
    }

    /** `(table, row)` pairs applied in order; rows of unknown tables are skipped. */
    method ApplyPairs(rows: seq<(Text, Row)>)
      requires Valid()
      modifies tables.Values
      ensures TablesData() == ApplyRows(old(TablesData()), rows)
    {
      hide Push;
      for i := 0 to |rows|
        invariant TablesData() == ApplyRows(old(TablesData()), rows[..i])
      {
        var (name, row) := rows[i];
        assert rows[..i + 1][..i] == rows[..i];
        label Before:
        assert TablesData().Keys == tables.Keys;
        if name in tables {
          tables[name].PushTrusted(row);
          OneTableChanged@Before(name);
        }
      }
      assert rows[..|rows|] == rows;
    }

    /** `apply_entry`. */
    method ApplyLogged(e: Entry)
      requires Valid() && Alterable(State().data, e)
      modifies this, tables.Values
      ensures Valid() && fresh(tables.Values - old(tables.Values))
      ensures State() == Live(ApplyEntry(old(State()).data, e), old(log))
    {
      hide Push, NewTable, Alter, Rectangular, ApplyRows;
      ghost var was := TablesData();
      match e
      case CreateTable(table, columns, pk) =>
        var t := new Table(columns, pk);
        tables := tables[table := t];
        assert TablesData() == was[table := NewTable(columns, pk)];
      case InsertRow(table, row) =>
        ApplyOne(was, (table, row));
        ApplyPairs([(table, row)]);
      case Transaction(rows) => ApplyPairs(rows);
      case CreateDatabase(name) => databases := databases + {name};
      case DropDatabase(name) => databases := databases - {name};
      case AlterTable(table, change) =>
        assert table in tables ==> was[table] == tables[table].Data();
        ReplaceAltered(table, change);
    }

    /** Opening a log: its entries applied one after the other to an empty store. */
    method ReplayLog(entries: seq<Entry>)
      requires State().data == EMPTY
      requires forall i :: 0 <= i < |entries| ==> Alterable(Replay(entries[..i]), entries[i])
      modifies this
      ensures Valid() && State().data == Replay(entries) && log == old(log)
    {
      hide ApplyEntry, Alterable;
      assert tables.Keys == TablesData().Keys;
      assert tables == map[];
      for i := 0 to |entries|
        invariant Valid() && fresh(tables.Values) && log == old(log)
        invariant State().data == Replay(entries[..i])
      {
        assert entries[..i + 1][..i] == entries[..i];
        ApplyLogged(entries[i]);
      }
      assert entries[..|entries|] == entries;
    }

    /** The rows `filter` accepts, in insertion order. */
    method ScanFiltered(table: Text, filter: Row -> bool) returns (r: Result<seq<Row>>)
      ensures r == if table in TablesData() then Ok(Filter(TablesData()[table].rows, filter)) else Err(Execution)
    {
      if table !in tables {
        return Err(Execution);
      }
      var rows, found := tables[table].rows, [];
      for i := 0 to |rows|
        invariant found == Filter(rows[..i], filter)
      {
        assert rows[..i + 1] == rows[..i] + [rows[i]];
        FilterAppend(rows[..i], [rows[i]], filter);
        if filter(rows[i]) {
          found := found + [rows[i]];
        }
      }
      assert rows[..|rows|] == rows;
      r := Ok(found);
    }

    method LookupByPrimaryKey(table: Text, key: Value) returns (r: Result<Option<Row>>)
      requires forall n :: n in tables ==> TableInv(tables[n].Data())
      ensures r == if table in TablesData() then Ok(LookupKey(TablesData()[table], key)) else Err(Execution)
    {
      if table !in tables {
        return Err(Execution);
      }
      var t := tables[table];
      assert TableInv(t.Data());
      if key !in t.index {
        return Ok(None);
      }
      r := Ok(Some(t.rows[t.index[key]]));
    }
  }

  /** The row the index finds for a key. */
  function LookupKey(t: TableData, key: Value): Option<Row> {
    if key in t.index && t.index[key] < |t.rows| then Some(t.rows[t.index[key]]) else None
  }

  // ---- operations case by case ----

  /** A record is not a schema change of a table with rows of the wrong width, on which
      the source would index out of bounds. */
  predicate Alterable(s: StorageData, e: Entry) {
    e.AlterTable? && e.table in s.tables ==> Rectangular(s.tables[e.table])
  }

  lemma PerformAlter(live: Live, name: Text, change: SchemaChange, logWrites: bool)
    requires name in live.data.tables ==> Rectangular(live.data.tables[name])
    ensures var tables := live.data.tables;
      var after := Perform(live, OpAlterTable(name, change), logWrites);
      var refused := name !in tables || Alter(tables[name], change).Err?;
      && (Validate(live.data, OpAlterTable(name, change)).Refuse? <==> refused)
      && (refused || !logWrites ==> after == live)
      && (!refused && logWrites ==>
            after == Live(live.data.(tables := tables[name := Alter(tables[name], change).value]),
                          live.log + [AlterTable(name, change)]))
  {
    hide Alter, Rectangular;
  }

  lemma PerformInsert(live: Live, table: Text, row: Row, logWrites: bool)
    ensures var tables := live.data.tables;
      var after := Perform(live, OpInsertRow(table, row), logWrites);
      var refused := !RowInsertable(tables, (table, row));
      && (refused || !logWrites ==> after == live)
      && (!refused && logWrites ==>
            after == Live(live.data.(tables := tables[table := Push(tables[table], row)]),
                          live.log + [InsertRow(table, row)]))
  {
    hide Push, HasWidth, KeyFree;
    ApplyOne(live.data.tables, (table, row));
  }

  lemma PerformReserve(live: Live, table: Text)
    ensures var tables := live.data.tables;
      var after := Perform(live, OpReserve(table), true);
      if table in tables && Reserve(tables[table]).Ok?
      then after == live.(data := live.data.(tables := tables[table := Reserve(tables[table]).value.1]))
      else after == live
  {}

  // ---- the validation loop's invariant ----

  /** `seen` holds exactly the keys the batch claims so far, per table. */
  ghost predicate SeenExactly(tables: map<Text, TableData>, rows: seq<(Text, Row)>, seen: map<Text, set<Value>>) {
    forall n, key :: n in tables ==> (Seen(seen, n, key) <==> Claims(tables[n], rows, n, key))
  }

  predicate Seen(seen: map<Text, set<Value>>, n: Text, key: Value) {
    n in seen && key in seen[n]
  }

  function SeenToo(tables: map<Text, TableData>, tr: (Text, Row), seen: map<Text, set<Value>>): map<Text, set<Value>>
    requires tr.0 in tables
  {
    match KeyOf(tables[tr.0], tr.1)
    case None => seen
    case Some(key) => seen[tr.0 := (if tr.0 in seen then seen[tr.0] else {}) + {key}]
  }

  lemma RowRefused(tables: map<Text, TableData>, rows: seq<(Text, Row)>, i: nat)
    requires i < |rows| && !RowInsertable(tables, rows[i])
    ensures !BatchInsertable(tables, rows)
  {}

  lemma RepeatRefused(tables: map<Text, TableData>, rows: seq<(Text, Row)>, i: nat, seen: map<Text, set<Value>>)
    requires i < |rows| && rows[i].0 in tables && KeyOf(tables[rows[i].0], rows[i].1).Some?
    requires SeenExactly(tables, rows[..i], seen)
    requires Seen(seen, rows[i].0, KeyOf(tables[rows[i].0], rows[i].1).value)
    ensures !BatchInsertable(tables, rows)
  {
    var n, key := rows[i].0, KeyOf(tables[rows[i].0], rows[i].1).value;
    assert Claims(tables[n], rows[..i], n, key);
    var k :| 0 <= k < i && rows[..i][k].0 == n && KeyOf(tables[n], rows[..i][k].1) == Some(key);
    if BatchInsertable(tables, rows) {
      assert RowInsertable(tables, rows[k]);
      assert Clash(tables, rows[k], rows[i]);
    }
  }

  lemma BatchGrows(tables: map<Text, TableData>, rows: seq<(Text, Row)>, tr: (Text, Row), seen: map<Text, set<Value>>)
    requires BatchInsertable(tables, rows) && SeenExactly(tables, rows, seen) && RowInsertable(tables, tr)
    requires KeyOf(tables[tr.0], tr.1).Some? ==> !Seen(seen, tr.0, KeyOf(tables[tr.0], tr.1).value)
    ensures BatchInsertable(tables, rows + [tr])
    ensures SeenExactly(tables, rows + [tr], SeenToo(tables, tr, seen))
  {
    hide HasWidth, KeyFree;
    var more, seen' := rows + [tr], SeenToo(tables, tr, seen);
    if KeyOf(tables[tr.0], tr.1).Some? {
      assert !Claims(tables[tr.0], rows, tr.0, KeyOf(tables[tr.0], tr.1).value);
    }
    forall n, key | n in tables
      ensures Seen(seen', n, key) <==> Claims(tables[n], more, n, key)
    {
      ClaimsMore(tables[n], rows, tr, n, key);
    }
  }

  lemma ClaimsMore(t: TableData, rows: seq<(Text, Row)>, tr: (Text, Row), n: Text, key: Value)
    ensures Claims(t, rows + [tr], n, key) <==> Claims(t, rows, n, key) || (tr.0 == n && KeyOf(t, tr.1) == Some(key))
  {
    var more := rows + [tr];
    assert more[|rows|] == tr;
    assert forall i :: 0 <= i < |rows| ==> more[i] == rows[i];
  }
}
