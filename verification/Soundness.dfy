/** Invariants of every store the engine's operations can reach: sound tables, and
    AUTO_INCREMENT counters that replay brings back no higher than the live ones. */
module Soundness {
  import opened Basics
  import opened Values
  import opened LogFormat
  import opened Conversions
  import opened Tables
  import opened Altering
  import opened Engine

  // ---- replayed tables are built from their rows ----

  predicate IsBuilt(t: TableData) {
    t == Build(t.schema, t.rows)
  }

  predicate AllBuilt(tables: map<Text, TableData>) {
    forall n :: n in tables ==> IsBuilt(tables[n])
  }

  lemma BuildIsBuilt(schema: TableSchema, rows: seq<Row>)
    ensures IsBuilt(Build(schema, rows))
  {
    hide Build;
    BuildShape(schema, rows);
  }

  lemma EmptyBuild(t: TableData)
    requires IsBuilt(t) && t.rows == []
    ensures t == NewTable(t.schema.columns, t.schema.primaryKey)
  {}

  lemma PushBuilt(t: TableData, row: Row)
    requires IsBuilt(t)
    ensures IsBuilt(Push(t, row))
  {
    hide NewTable;
    assert (t.rows + [row])[..|t.rows|] == t.rows;
    BuildShape(t.schema, t.rows + [row]);
  }

  lemma NewTableBuilt(columns: seq<ColumnSchema>, pk: Option<Text>)
    ensures IsBuilt(NewTable(columns, pk))
  {
    BuildIsBuilt(TableSchema(columns, pk), []);
  }

  lemma AlterBuilt(t: TableData, change: SchemaChange)
    requires Rectangular(t) && Alter(t, change).Ok?
    ensures IsBuilt(Alter(t, change).value)
  {
    hide Build, ModifyRows, IsBuilt;
    var columns, pk := t.schema.columns, t.schema.primaryKey;
    match change
    case AddColumn(column, isPk) =>
      BuildIsBuilt(TableSchema(columns + [column], if isPk then Some(column.name) else pk),
                   MapRows(t.rows, row => row + [Null]));
    case DropColumn(name) =>
      var idx := ColumnIndex(columns, name).value;
      BuildIsBuilt(TableSchema(columns[..idx] + columns[idx + 1..], if pk == Some(name) then None else pk),
                   MapRows(t.rows, row => WithoutCell(row, idx)));
    case ModifyColumn(col) =>
      var idx := ColumnIndex(columns, col.name).value;
      BuildIsBuilt(TableSchema(columns[idx := col], pk), ModifyRows(t.rows, idx, col).value);
    case AddPrimaryKey(name) =>
      var idx := ColumnIndex(columns, name).value;
      BuildIsBuilt(TableSchema(columns[idx := columns[idx].(nullable := false)], Some(name)), t.rows);
    case DropPrimaryKey =>
      BuildIsBuilt(TableSchema(ClearAuto(columns, pk.value), None), t.rows);
  }

  lemma {:induction false} ApplyRowsBuilt(tables: map<Text, TableData>, rows: seq<(Text, Row)>)
    requires AllBuilt(tables)
    ensures AllBuilt(ApplyRows(tables, rows))
  {
    hide IsBuilt, Push;
    if rows != [] {
      var n := |rows| - 1;
      ApplyRowsBuilt(tables, rows[..n]);
      var x := ApplyRows(tables, rows[..n]);
      if rows[n].0 in x {
        PushBuilt(x[rows[n].0], rows[n].1);
      }
    }
  }

  lemma ApplyEntryBuilt(s: StorageData, e: Entry)
    requires AllBuilt(s.tables)
    ensures AllBuilt(ApplyEntry(s, e).tables)
  {
    hide IsBuilt, Push, Alter, NewTable;
    match e
    case CreateTable(table, columns, pk) => NewTableBuilt(columns, pk);
    case InsertRow(table, row) =>
      ApplyOne(s.tables, (table, row));
      ApplyRowsBuilt(s.tables, [(table, row)]);
    case Transaction(rows) => ApplyRowsBuilt(s.tables, rows);
    case AlterTable(table, change) =>
      if table in s.tables && Rectangular(s.tables[table]) && Alter(s.tables[table], change).Ok? {
        AlterBuilt(s.tables[table], change);
      }
    case _ =>
  }

  /** Whatever the log, every replayed table is what its rows alone would build. */
  lemma {:induction false} ReplayBuilt(log: seq<Entry>)
    ensures AllBuilt(Replay(log).tables)
  {
    hide ApplyEntry, IsBuilt;
    if log != [] {
      ReplayBuilt(log[..|log| - 1]);
      ApplyEntryBuilt(Replay(log[..|log| - 1]), log[|log| - 1]);
    }
  }

  // ---- counters ----

  predicate StoresMax(t: TableData) {
    t.counter.Some? && exists i :: 0 <= i < |t.rows| && HoldsMax(t.rows[i], t.counter.value.column)
  }

  /** A replayed counter is above every stored value, exactly if the largest one is not stored. */
  lemma ReplayedCounterAbove(log: seq<Entry>, name: Text)
    requires name in Replay(log).tables
    ensures CounterAbove(Replay(log).tables[name]) <==> !StoresMax(Replay(log).tables[name])
  {
    hide Replay, Build;
    var t := Replay(log).tables[name];
    ReplayBuilt(log);
    BuildCounter(t.schema, t.rows);
    BuildShape(t.schema, t.rows);
  }

  predicate CounterAtMost(a: TableData, b: TableData) {
    a.counter.Some? && b.counter.Some? ==> a.counter.value.next <= b.counter.value.next
  }

  ghost predicate CountersAtMost(a: map<Text, TableData>, b: map<Text, TableData>) {
    forall n :: n in a && n in b ==> CounterAtMost(a[n], b[n])
  }

  /** No value is handed out past the largest `i64`. */
  predicate HasRoom(s: StorageData, op: Op) {
    op.OpReserve? && op.table in s.tables && s.tables[op.table].counter.Some? ==>
      s.tables[op.table].counter.value.next < I64_MAX
  }

  predicate AlwaysRoom(actions: seq<Action>) {
    actions != [] ==>
      && AlwaysRoom(actions[..|actions| - 1])
      && HasRoom(RunOps(Live(EMPTY, []), actions[..|actions| - 1]).data, actions[|actions| - 1].op)
  }

  lemma PushAtMost(a: TableData, b: TableData, row: Row)
    requires SameTable(a, b) && CounterAtMost(a, b)
    ensures CounterAtMost(Push(a, row), Push(b, row))
  {}

  lemma {:induction false} ApplyRowsAtMost(a: map<Text, TableData>, b: map<Text, TableData>, rows: seq<(Text, Row)>)
    requires SameTables(a, b) && CountersAtMost(a, b)
    ensures CountersAtMost(ApplyRows(a, rows), ApplyRows(b, rows))
  {
    hide Push, SameTable, CounterAtMost;
    if rows != [] {
      var n := |rows| - 1;
      ApplyRowsAtMost(a, b, rows[..n]);
      ApplyRowsSame(a, b, rows[..n]);
      var x, y := ApplyRows(a, rows[..n]), ApplyRows(b, rows[..n]);
      if rows[n].0 in x {
        PushAtMost(x[rows[n].0], y[rows[n].0], rows[n].1);
      }
    }
  }

  lemma EntryAtMost(replayed: StorageData, s: StorageData, op: Op)
    requires Agrees(replayed, s) && AllRectangular(s.tables) && CountersAtMost(replayed.tables, s.tables)
    requires Validate(s, op).LogThenApply?
    ensures CountersAtMost(ApplyEntry(replayed, Validate(s, op).entry).tables, Effect(s, op).tables)
  {
    hide Alter, SameTable, Push, CounterAtMost;
    match op
    case OpCreateTable(name, columns, pk) => AtMostSelf(NewTable(columns, pk));
    case OpAlterTable(name, change) =>
      AlterBoth(replayed.tables[name], s.tables[name], change);
      AtMostSelf(Alter(s.tables[name], change).value);
    case OpInsertRow(table, row) =>
      ApplyRowsAtMost(replayed.tables, s.tables, [(table, row)]);
      ApplyOne(replayed.tables, (table, row));
    case OpInsertRows(rows) => ApplyRowsAtMost(replayed.tables, s.tables, rows);
    case _ =>
  }

  lemma AtMostSelf(t: TableData)
    ensures CounterAtMost(t, t)
  {}

  lemma NothingAtMost(replayed: StorageData, s: StorageData, op: Op)
    requires CountersAtMost(replayed.tables, s.tables) && Validate(s, op).Nothing? && HasRoom(s, op)
    ensures CountersAtMost(replayed.tables, Effect(s, op).tables)
  {
    match op
    case OpInsertRows(rows) =>
    case OpCreateDatabase(name, _) =>
    case OpReserve(table) => assert CountersAtMost(replayed.tables, s.tables);
  }

  /** As long as no counter runs over, replay brings every AUTO_INCREMENT counter back at
      or below the live one. */
  lemma {:induction false} ReplayedCountersAtMost(actions: seq<Action>)
    requires AlwaysRoom(actions)
    ensures var live := RunOps(Live(EMPTY, []), actions);
      CountersAtMost(Replay(live.log).tables, live.data.tables)
  {
    hide ApplyEntry, Effect, Validate, HasRoom, Agrees, AllRectangular;
    if actions != [] {
      var n := |actions| - 1;
      ReplayedCountersAtMost(actions[..n]);
      ReplayRebuilds(actions[..n]);
      var before := RunOps(Live(EMPTY, []), actions[..n]);
      var op := actions[n].op;
      var after := Perform(before, op, actions[n].logWrites);
      match Validate(before.data, op)
      case Refuse(_) =>
      case Nothing => NothingAtMost(Replay(before.log), before.data, op);
      case LogThenApply(e) =>
        if actions[n].logWrites {
          EntryAtMost(Replay(before.log), before.data, op);
          assert after.log[..|before.log|] == before.log;
        }
    }
  }

  /** In every reachable store no counter of which has run over, the next AUTO_INCREMENT
      value is above every stored one, exactly if the largest `i64` is not stored. */
  lemma LiveCounterAbove(actions: seq<Action>, name: Text)
    requires AlwaysRoom(actions)
    requires name in RunOps(Live(EMPTY, []), actions).data.tables
    ensures var t := RunOps(Live(EMPTY, []), actions).data.tables[name];
      CounterAbove(t) <==> !StoresMax(t)
  {
    hide Replay, RunOps, AlwaysRoom;
    var live := RunOps(Live(EMPTY, []), actions);
    ReplayRebuilds(actions);
    ReplayedCountersAtMost(actions);
    ReplayedCounterAbove(live.log, name);
    HigherStaysAbove(Replay(live.log).tables[name], live.data.tables[name]);
  }

  lemma HigherStaysAbove(a: TableData, b: TableData)
    requires SameTable(a, b) && CounterAtMost(a, b)
    requires CounterAbove(a) <==> !StoresMax(a)
    ensures CounterAbove(b) <==> !StoresMax(b)
  {
    if b.counter.Some? {
      var was, now := a.counter.value, b.counter.value;
      assert forall i :: 0 <= i < |b.rows| && Below(a.rows[i], was) ==> Below(b.rows[i], now);
      assert forall i :: 0 <= i < |b.rows| && HoldsMax(b.rows[i], now.column) ==> !Below(b.rows[i], now);
    }
  }

  // ---- sound tables ----

  ghost predicate Sound(t: TableData) {
    TableInv(t) && WellTyped(t)
  }

  ghost predicate AllSound(tables: map<Text, TableData>) {
    forall n :: n in tables ==> Sound(tables[n])
  }

  predicate RowFits(tables: map<Text, TableData>, tr: (Text, Row)) {
    tr.0 in tables ==> RowTyped(tables[tr.0].schema.columns, tr.1)
  }

  predicate RowsFit(tables: map<Text, TableData>, rows: seq<(Text, Row)>) {
    forall i :: 0 <= i < |rows| ==> RowFits(tables, rows[i])
  }

  /** Callers hand over typed rows, and change the key column's type only where that
      cannot merge keys. */
  predicate Careful(s: StorageData, op: Op) {
    match op
    case OpInsertRow(table, row) => RowFits(s.tables, (table, row))
    case OpInsertRows(rows) => RowsFit(s.tables, rows)
    case OpAlterTable(name, change) => name in s.tables ==> KeepsKeysApart(s.tables[name], change)
    case _ => true
  }

  predicate AlwaysCareful(actions: seq<Action>) {
    actions != [] ==>
      && AlwaysCareful(actions[..|actions| - 1])
      && Careful(RunOps(Live(EMPTY, []), actions[..|actions| - 1]).data, actions[|actions| - 1].op)
  }

  /** Some row of the batch goes into table `n` under `key`. */
  predicate Claims(t: TableData, rows: seq<(Text, Row)>, n: Text, key: Value) {
    exists i :: 0 <= i < |rows| && rows[i].0 == n && KeyOf(t, rows[i].1) == Some(key)
  }

  /** What a batch does to each table: schemas stay, and the keys in the index are the old
      ones and the batch's own. */
  lemma {:induction false} ApplyRowsKeys(tables: map<Text, TableData>, rows: seq<(Text, Row)>)
    ensures var r := ApplyRows(tables, rows);
      && r.Keys == tables.Keys
      && (forall n :: n in r ==> r[n].schema == tables[n].schema && r[n].keyIndex == tables[n].keyIndex)
      && (forall n, key :: n in r && key in r[n].index ==> key in tables[n].index || Claims(tables[n], rows, n, key))
  {
    if rows != [] {
      var m := |rows| - 1;
      ApplyRowsKeys(tables, rows[..m]);
      var x, r := ApplyRows(tables, rows[..m]), ApplyRows(tables, rows);
      forall n, key | n in r && key in r[n].index
        ensures key in tables[n].index || Claims(tables[n], rows, n, key)
      {
        if key in x[n].index {
          if Claims(tables[n], rows[..m], n, key) {
            var i :| 0 <= i < m && rows[..m][i].0 == n && KeyOf(tables[n], rows[..m][i].1) == Some(key);
            assert rows[i] == rows[..m][i];
          }
        } else {
          assert rows[m].0 == n && KeyOf(tables[n], rows[m].1) == Some(key);
        }
      }
    }
  }

  /** A validated batch keeps every table's invariant. */
  lemma {:induction false} BatchInv(tables: map<Text, TableData>, rows: seq<(Text, Row)>)
    requires forall n :: n in tables ==> TableInv(tables[n])
    requires BatchInsertable(tables, rows)
    ensures forall n :: n in ApplyRows(tables, rows) ==> TableInv(ApplyRows(tables, rows)[n])
  {
    hide TableInv, Push;
    if rows != [] {
      var m := |rows| - 1;
      assert BatchInsertable(tables, rows[..m]) by {
        assert forall i :: 0 <= i < m ==> rows[..m][i] == rows[i];
      }
      BatchInv(tables, rows[..m]);
      ApplyRowsKeys(tables, rows[..m]);
      var x := ApplyRows(tables, rows[..m]);
      var (name, row) := rows[m];
      assert RowInsertable(tables, rows[m]);
      if KeyOf(tables[name], row).Some? {
        forall i | 0 <= i < m
          ensures !(rows[..m][i].0 == name && KeyOf(tables[name], rows[..m][i].1) == KeyOf(tables[name], row))
        {
          assert !Clash(tables, rows[i], rows[m]);
        }
        assert !Claims(tables[name], rows[..m], name, KeyOf(tables[name], row).value);
      }
      PushKeepsInv(x[name], row);
    }
  }

  lemma {:induction false} BatchTyped(tables: map<Text, TableData>, rows: seq<(Text, Row)>)
    requires forall n :: n in tables ==> WellTyped(tables[n])
    requires RowsFit(tables, rows)
    ensures forall n :: n in ApplyRows(tables, rows) ==> WellTyped(ApplyRows(tables, rows)[n])
  {
    hide RowTyped;
    if rows != [] {
      var m := |rows| - 1;
      assert forall i :: 0 <= i < m ==> rows[..m][i] == rows[i];
      BatchTyped(tables, rows[..m]);
      ApplyRowsKeys(tables, rows[..m]);
      var x := ApplyRows(tables, rows[..m]);
      assert RowFits(tables, rows[m]);
      if rows[m].0 in x {
        assert forall i :: 0 <= i < |x[rows[m].0].rows| ==> RowTyped(x[rows[m].0].schema.columns, x[rows[m].0].rows[i]);
      }
    }
  }

  /** A validated batch of typed rows keeps every table sound. */
  lemma BatchSound(tables: map<Text, TableData>, rows: seq<(Text, Row)>)
    requires AllSound(tables) && RowsFit(tables, rows) && BatchInsertable(tables, rows)
    ensures AllSound(ApplyRows(tables, rows))
  {
    hide TableInv, WellTyped, ApplyRows, BatchInsertable, RowsFit;
    assert forall n :: n in tables ==> Sound(tables[n]);
    BatchInv(tables, rows);
    BatchTyped(tables, rows);
  }

  lemma EffectSound(s: StorageData, op: Op)
    requires AllSound(s.tables) && Careful(s, op) && !Validate(s, op).Refuse?
    ensures AllSound(Effect(s, op).tables)
  {
    hide Alter, NewTable, Push, RowTyped, TableInv, WellTyped, KeepsKeysApart;
    match op
    case OpCreateTable(name, columns, pk) => NewTableSound(columns, pk);
    case OpAlterTable(name, change) =>
      AlterKeeps(s.tables[name], change);
    case OpInsertRow(table, row) =>
      assert BatchInsertable(s.tables, [(table, row)]);
      BatchSound(s.tables, [(table, row)]);
    case OpInsertRows(rows) =>
      if rows != [] {
        BatchSound(s.tables, rows);
      }
    case OpReserve(table) => ReserveSound(s.tables[table]);
    case _ =>
  }

  lemma NewTableSound(columns: seq<ColumnSchema>, pk: Option<Text>)
    requires pk.Some? ==> ColumnIndex(columns, pk.value).Some?
    ensures Sound(NewTable(columns, pk))
  {
    NewTableInv(columns, pk);
  }

  lemma ReserveSound(t: TableData)
    requires Sound(t) && Reserve(t).Ok?
    ensures Sound(Reserve(t).value.1)
  {
    var r := Reserve(t).value.1;
    assert forall i :: 0 <= i < |t.rows| ==> HasWidth(t, t.rows[i]);
  }

  /** Every table any sequence of operations can reach is sound. */
  lemma {:induction false} TablesStaySound(actions: seq<Action>)
    requires AlwaysCareful(actions)
    ensures AllSound(RunOps(Live(EMPTY, []), actions).data.tables)
  {
    hide Effect, Validate, Careful, Sound;
    if actions != [] {
      var n := |actions| - 1;
      TablesStaySound(actions[..n]);
      var before := RunOps(Live(EMPTY, []), actions[..n]);
      if !Validate(before.data, actions[n].op).Refuse? {
        EffectSound(before.data, actions[n].op);
      }
    }
  }
}
