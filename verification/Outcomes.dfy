/** What each storage operation does to the tables, said of rows, schemas and names alone:
    when it is accepted, what is in the tables and the log afterwards, and that nothing
    else changed. */
module Outcomes {
  import opened Basics
  import opened Values
  import opened LogFormat
  import opened Conversions
  import opened Tables
  import opened Altering
  import opened Engine
  import opened Soundness
  import opened Projection

  // ---- CREATE TABLE ----

  /** Accepted exactly for a new name and a key that is one of the columns; then there is
      one more table, empty, with that schema, and one more record. */
  lemma CreateTableExact(live: Live, name: Text, columns: seq<ColumnSchema>, pk: Option<Text>, logWrites: bool)
    ensures var after := Perform(live, OpCreateTable(name, columns, pk), logWrites);
      if logWrites && name !in live.data.tables && (pk.Some? ==> HasColumn(columns, pk.value)) then
        && after.log == live.log + [CreateTable(name, columns, pk)]
        && after.data.databases == live.data.databases
        && after.data.tables.Keys == live.data.tables.Keys + {name}
        && after.data.tables[name].schema == TableSchema(columns, pk) && after.data.tables[name].rows == []
        && (forall n :: n in live.data.tables ==> after.data.tables[n] == live.data.tables[n])
      else after == live
  {
    hide ColumnIndex;
    if pk.Some? {
      HasColumnIndex(columns, pk.value);
    }
  }

  // ---- INSERT ----

  /** No row of `rows` holds the key of `row`, which is in column `k`. */
  predicate KeyUnused(rows: seq<Row>, k: nat, row: Row) {
    k < |row| && forall i :: 0 <= i < |rows| && k < |rows[i]| ==> rows[i][k] != row[k]
  }

  /** The row is as wide as the schema, and none of the rows has its key. */
  predicate MayJoin(schema: TableSchema, rows: seq<Row>, row: Row) {
    && |row| == |schema.columns|
    && (schema.primaryKey.Some? ==>
          match ColumnIndex(schema.columns, schema.primaryKey.value)
          case Some(k) => KeyUnused(rows, k, row)
          case None => true)
  }

  lemma MayJoinMeans(t: TableData, row: Row)
    requires TableInv(t)
    ensures MayJoin(t.schema, t.rows, row) <==> HasWidth(t, row) && KeyFree(t, row)
  {
    if t.keyIndex.Some? && HasWidth(t, row) {
      var k := t.keyIndex.value;
      if row[k] in t.index {
        assert t.rows[t.index[row[k]]][k] == row[k];
      }
    }
  }

  /** The rows for each table may join it one after the other. */
  ghost predicate MayJoinAll(tables: map<Text, TableData>, rows: seq<(Text, Row)>) {
    forall i :: 0 <= i < |rows| ==>
      && rows[i].0 in tables
      && MayJoin(tables[rows[i].0].schema, tables[rows[i].0].rows + RowsFor(rows[..i], rows[i].0), rows[i].1)
  }

  /** Of a batch, `row` may join the table behind the batch's own earlier rows exactly if
      it may join the table and none of those has its key. */
  lemma JoinsBehind(t: TableData, more: seq<Row>, row: Row)
    requires TableInv(t) && forall i :: 0 <= i < |more| ==> HasWidth(t, more[i])
    ensures MayJoin(t.schema, t.rows + more, row) <==> (
      && HasWidth(t, row) && KeyFree(t, row)
      && (KeyOf(t, row).Some? ==> forall i :: 0 <= i < |more| ==> KeyOf(t, more[i]) != KeyOf(t, row)))
  {
    MayJoinMeans(t, row);
    var all := t.rows + more;
    if t.keyIndex.Some? && HasWidth(t, row) {
      var k := t.keyIndex.value;
      assert forall i :: 0 <= i < |t.rows| ==> all[i] == t.rows[i];
      assert forall i :: 0 <= i < |more| ==> all[|t.rows| + i] == more[i];
      assert KeyUnused(all, k, row) <==> KeyUnused(t.rows, k, row) && forall i :: 0 <= i < |more| ==> more[i][k] != row[k];
    }
  }

  /** Where in a batch a row of one table's share comes from. */
  lemma {:induction false} ShareFrom(rows: seq<(Text, Row)>, t: Text, m: nat) returns (j: nat)
    requires m < |RowsFor(rows, t)|
    ensures j < |rows| && rows[j] == (t, RowsFor(rows, t)[m])
    decreases |rows|
  {
    var n := |rows| - 1;
    if m < |RowsFor(rows[..n], t)| {
      j := ShareFrom(rows[..n], t, m);
    } else {
      j := n;
    }
  }

  lemma ShareHas(rows: seq<(Text, Row)>, j: nat) returns (m: nat)
    requires j < |rows|
    ensures m < |RowsFor(rows, rows[j].0)| && RowsFor(rows, rows[j].0)[m] == rows[j].1
  {
    hide RowsFor;
    PosFinds(rows, j);
    m := Pos(rows, j);
  }

  /** No row in front of row `i` of the batch claims the same key of the same table. */
  predicate ClashesNoEarlier(tables: map<Text, TableData>, rows: seq<(Text, Row)>, i: nat)
    requires i < |rows| && forall j :: 0 <= j <= i ==> rows[j].0 in tables
  {
    forall j :: 0 <= j < i ==> !Clash(tables, rows[j], rows[i])
  }

  lemma ShareClashes(tables: map<Text, TableData>, rows: seq<(Text, Row)>, i: nat)
    requires i < |rows| && forall j :: 0 <= j <= i ==> rows[j].0 in tables && HasWidth(tables[rows[j].0], rows[j].1)
    requires TableInv(tables[rows[i].0])
    ensures var t, more := tables[rows[i].0], RowsFor(rows[..i], rows[i].0);
      ClashesNoEarlier(tables, rows, i)
      <==> (KeyOf(t, rows[i].1).Some? ==> forall m :: 0 <= m < |more| ==> KeyOf(t, more[m]) != KeyOf(t, rows[i].1))
  {
    hide RowsFor, TableInv;
    var name, front := rows[i].0, rows[..i];
    var t, more := tables[name], RowsFor(front, name);
    if ClashesNoEarlier(tables, rows, i) && KeyOf(t, rows[i].1).Some? {
      forall m | 0 <= m < |more|
        ensures KeyOf(t, more[m]) != KeyOf(t, rows[i].1)
      {
        var j := ShareFrom(front, name, m);
        assert front[j] == rows[j];
        assert !Clash(tables, rows[j], rows[i]);
      }
    }
    if KeyOf(t, rows[i].1).Some? ==> forall m :: 0 <= m < |more| ==> KeyOf(t, more[m]) != KeyOf(t, rows[i].1) {
      forall j | 0 <= j < i
        ensures !Clash(tables, rows[j], rows[i])
      {
        if rows[j].0 == name {
          assert front[j] == rows[j];
          var m := ShareHas(front, j);
          assert KeyOf(t, rows[i].1).Some? ==> KeyOf(t, more[m]) != KeyOf(t, rows[i].1);
        }
      }
    }
  }

  lemma SharesWide(tables: map<Text, TableData>, rows: seq<(Text, Row)>, t: Text)
    requires t in tables
    requires forall j :: 0 <= j < |rows| ==> rows[j].0 in tables && HasWidth(tables[rows[j].0], rows[j].1)
    ensures forall m :: 0 <= m < |RowsFor(rows, t)| ==> HasWidth(tables[t], RowsFor(rows, t)[m])
  {
    hide RowsFor;
    forall m | 0 <= m < |RowsFor(rows, t)|
      ensures HasWidth(tables[t], RowsFor(rows, t)[m])
    {
      var j := ShareFrom(rows, t, m);
    }
  }

  /** Row `i` of a batch whose earlier rows are as wide as their tables. */
  lemma RowJoins(tables: map<Text, TableData>, rows: seq<(Text, Row)>, i: nat)
    requires i < |rows| && rows[i].0 in tables && TableInv(tables[rows[i].0])
    requires forall j :: 0 <= j < i ==> rows[j].0 in tables && HasWidth(tables[rows[j].0], rows[j].1)
    ensures MayJoin(tables[rows[i].0].schema, tables[rows[i].0].rows + RowsFor(rows[..i], rows[i].0), rows[i].1)
       <==> RowInsertable(tables, rows[i]) && ClashesNoEarlier(tables, rows, i)
  {
    hide RowsFor, TableInv, MayJoin, ClashesNoEarlier;
    var t, more := tables[rows[i].0], RowsFor(rows[..i], rows[i].0);
    SharesWide(tables, rows[..i], rows[i].0);
    JoinsBehind(t, more, rows[i].1);
    if HasWidth(t, rows[i].1) {
      ShareClashes(tables, rows, i);
    }
  }

  /** The validation loop accepts exactly the batches whose rows could be inserted one by
      one, each behind the ones before it. */
  lemma BatchMeans(tables: map<Text, TableData>, rows: seq<(Text, Row)>)
    requires forall t :: t in tables ==> TableInv(tables[t])
    ensures BatchInsertable(tables, rows) <==> MayJoinAll(tables, rows)
  {
    hide RowsFor, TableInv, MayJoin;
    if BatchInsertable(tables, rows) {
      forall i | 0 <= i < |rows|
        ensures MayJoin(tables[rows[i].0].schema, tables[rows[i].0].rows + RowsFor(rows[..i], rows[i].0), rows[i].1)
      {
        assert RowInsertable(tables, rows[i]);
        assert forall j :: 0 <= j < |rows| ==> RowInsertable(tables, rows[j]);
        RowJoins(tables, rows, i);
      }
    }
    if MayJoinAll(tables, rows) {
      forall i | 0 <= i < |rows|
        ensures RowInsertable(tables, rows[i]) && ClashesNoEarlier(tables, rows, i)
      {
        RowsJoin(tables, rows, i);
      }
    }
  }

  lemma {:induction false} RowsJoin(tables: map<Text, TableData>, rows: seq<(Text, Row)>, i: nat)
    requires (forall t :: t in tables ==> TableInv(tables[t])) && MayJoinAll(tables, rows) && i < |rows|
    ensures forall j :: 0 <= j <= i ==> RowInsertable(tables, rows[j])
    ensures ClashesNoEarlier(tables, rows, i)
  {
    hide RowsFor, TableInv, MayJoin;
    if i > 0 {
      RowsJoin(tables, rows, i - 1);
    }
    RowJoins(tables, rows, i);
  }

  /** INSERT of any number of rows: accepted exactly if they could be inserted one by one;
      then each table's rows are followed by its own, in order, and nothing else changes. */
  lemma InsertRowsExact(live: Live, rows: seq<(Text, Row)>, logWrites: bool)
    requires rows != [] && forall t :: t in live.data.tables ==> TableInv(live.data.tables[t])
    ensures var after := Perform(live, OpInsertRows(rows), logWrites);
      if logWrites && MayJoinAll(live.data.tables, rows) then
        && after.log == live.log + [Transaction(rows)]
        && after.data.databases == live.data.databases
        && after.data.tables.Keys == live.data.tables.Keys
        && (forall t :: t in live.data.tables ==>
              && after.data.tables[t].schema == live.data.tables[t].schema
              && after.data.tables[t].rows == live.data.tables[t].rows + RowsFor(rows, t))
      else after == live
  {
    hide RowsFor, TableInv, MayJoinAll, BatchInsertable, ApplyRows, PushAll;
    BatchMeans(live.data.tables, rows);
    ApplyRowsEach(live.data.tables, rows);
    forall t | t in live.data.tables
      ensures PushAll(live.data.tables[t], RowsFor(rows, t)).schema == live.data.tables[t].schema
      ensures PushAll(live.data.tables[t], RowsFor(rows, t)).rows == live.data.tables[t].rows + RowsFor(rows, t)
    {
      PushAllRows(live.data.tables[t], RowsFor(rows, t));
    }
  }

  /** INSERT of one row is the same, logged as a record of its own kind. */
  lemma InsertRowExact(live: Live, table: Text, row: Row, logWrites: bool)
    requires forall t :: t in live.data.tables ==> TableInv(live.data.tables[t])
    ensures var after := Perform(live, OpInsertRow(table, row), logWrites);
      if logWrites && table in live.data.tables && MayJoin(live.data.tables[table].schema, live.data.tables[table].rows, row) then
        && after.log == live.log + [InsertRow(table, row)]
        && after.data.databases == live.data.databases
        && after.data.tables.Keys == live.data.tables.Keys
        && after.data.tables[table].schema == live.data.tables[table].schema
        && after.data.tables[table].rows == live.data.tables[table].rows + [row]
        && (forall t :: t in live.data.tables && t != table ==> after.data.tables[t] == live.data.tables[t])
      else after == live
  {
    hide TableInv, MayJoin;
    if table in live.data.tables {
      MayJoinMeans(live.data.tables[table], row);
      ApplyOne(live.data.tables, (table, row));
    }
  }

  // ---- ALTER TABLE, databases, AUTO_INCREMENT ----

  /** ALTER TABLE: accepted exactly if the change is possible, and then only that table is
      replaced; what a change makes of a table is said in `Altering`. */
  lemma AlterTableExact(live: Live, name: Text, change: SchemaChange, logWrites: bool)
    requires AllRectangular(live.data.tables)
    ensures var after := Perform(live, OpAlterTable(name, change), logWrites);
      if logWrites && name in live.data.tables && Alter(live.data.tables[name], change).Ok? then
        && after.log == live.log + [AlterTable(name, change)]
        && after.data.databases == live.data.databases
        && after.data.tables == live.data.tables[name := Alter(live.data.tables[name], change).value]
      else after == live
  {
    hide Alter, Rectangular;
  }

  /** The database names after each of the two statements, and whether it is logged. */
  lemma DatabasesExact(live: Live, name: Text, relaxed: bool, logWrites: bool)
    ensures var made := Perform(live, OpCreateDatabase(name, relaxed), logWrites);
      && made.data.tables == live.data.tables
      && made.data.databases == (if logWrites then live.data.databases + {name} else live.data.databases)
      && made.log == (if logWrites && name !in live.data.databases then live.log + [CreateDatabase(name)] else live.log)
    ensures var gone := Perform(live, OpDropDatabase(name, relaxed), logWrites);
      && gone.data.tables == live.data.tables
      && gone.data.databases == (if logWrites then live.data.databases - {name} else live.data.databases)
      && gone.log == (if logWrites && (relaxed || name in live.data.databases) then live.log + [DropDatabase(name)] else live.log)
    ensures Validate(live.data, OpCreateDatabase(name, relaxed)).Refuse? <==> name in live.data.databases && !relaxed
    ensures Validate(live.data, OpDropDatabase(name, relaxed)).Refuse? <==> name !in live.data.databases && !relaxed
  {
    assert name in live.data.databases ==> live.data.databases + {name} == live.data.databases;
    assert name !in live.data.databases ==> live.data.databases - {name} == live.data.databases;
  }

  /** Handing out a number changes one counter, and no row, schema or record. */
  lemma ReserveExact(live: Live, table: Text, logWrites: bool)
    ensures var after := Perform(live, OpReserve(table), logWrites);
      && after.log == live.log && after.data.databases == live.data.databases
      && SameTables(live.data.tables, after.data.tables)
      && (forall t :: t in live.data.tables && t != table ==> after.data.tables[t] == live.data.tables[t])
      && (table in live.data.tables && live.data.tables[table].counter.Some? ==>
            after.data.tables[table].counter.value.next == WrapI64(live.data.tables[table].counter.value.next + 1))
  {}

  // ---- what no operation does ----

  /** The tables an operation is about. */
  predicate Names(op: Op, t: Text) {
    match op
    case OpCreateTable(name, _, _) => name == t
    case OpAlterTable(name, _) => name == t
    case OpInsertRow(table, _) => table == t
    case OpInsertRows(rows) => RowsFor(rows, t) != []
    case OpReserve(table) => table == t
    case _ => false
  }

  /** In every store: no operation takes a table away; only ALTER TABLE of that very table
      changes its schema or any row it has; CREATE TABLE leaves an existing table as it is;
      and a table an operation does not name stays exactly as it was. */
  lemma TablesStand(live: Live, op: Op, logWrites: bool, t: Text)
    requires AllRectangular(live.data.tables) && t in live.data.tables
    ensures var after := Perform(live, op, logWrites).data.tables;
      && t in after
      && (!(op.OpAlterTable? && op.name == t) ==>
            after[t].schema == live.data.tables[t].schema && live.data.tables[t].rows <= after[t].rows)
      && (op.OpCreateTable? || !Names(op, t) ==> after[t] == live.data.tables[t])
  {
    hide Alter, ApplyRows, BatchInsertable, RowsFor, PushAll, Push, Rectangular;
    var tables := live.data.tables;
    match op
    case OpInsertRow(table, row) =>
      ApplyRowsAt(tables, [(table, row)], t);
      PushAllRows(tables[t], RowsFor([(table, row)], t));
      OneShare(table, row, t);
      NothingPushed(tables[t]);
    case OpInsertRows(rows) =>
      ApplyRowsAt(tables, rows, t);
      PushAllRows(tables[t], RowsFor(rows, t));
      NothingPushed(tables[t]);
    case _ =>
  }

  lemma OneShare(table: Text, row: Row, t: Text)
    ensures RowsFor([(table, row)], t) == if t == table then [row] else []
  {
    assert [(table, row)][..0] == [];
  }

  lemma NothingPushed(t: TableData)
    ensures PushAll(t, []) == t
  {}

  /** So through any sequence of operations without an ALTER TABLE of it, a table keeps its
      schema and every row in its place. */
  lemma {:induction false} RowsStand(live: Live, actions: seq<Action>, t: Text)
    requires AllRectangular(live.data.tables) && t in live.data.tables
    requires forall i :: 0 <= i < |actions| ==> !(actions[i].op.OpAlterTable? && actions[i].op.name == t)
    ensures var after := RunOps(live, actions).data.tables;
      && AllRectangular(after) && t in after
      && after[t].schema == live.data.tables[t].schema && live.data.tables[t].rows <= after[t].rows
    decreases |actions|
  {
    hide Rectangular, Perform;
    if actions != [] {
      var n := |actions| - 1;
      RowsStand(live, actions[..n], t);
      var before := RunOps(live, actions[..n]);
      TablesStand(before, actions[n].op, actions[n].logWrites, t);
      PerformRectangular(before, actions[n].op, actions[n].logWrites);
    }
  }

  lemma PerformRectangular(live: Live, op: Op, logWrites: bool)
    requires AllRectangular(live.data.tables)
    ensures AllRectangular(Perform(live, op, logWrites).data.tables)
  {
    hide Effect, Validate, Rectangular;
    if !Validate(live.data, op).Refuse? {
      EffectRectangular(live.data, op);
    }
  }
}
